/**
 The symbol master (service/symbol/file.go): a line-oriented file in which a bracketed
 counterparty name opens a section of "bitfinex=counterparty" assignments, and the two-way
 lookup over the parsed result.
 */
module SymbolMaster {
  import opened Wrappers
  import opened Text

  datatype SymbolSet = SymbolSet(symbols: map<string, string>, passthrough: bool)

  type Table = map<string, SymbolSet>

  const EMPTY := SymbolSet(map[], false)

  predicate IsHeader(line: string) {
    |line| >= 2 && line[0] == '[' && line[|line| - 1] == ']'
  }

  function CurrentAfter(current: string, line: string): (name: string) {
    if IsHeader(line) then line[1..|line| - 1] else current
  }

  /** The effect of one assignment line on its counterparty's set. */
  function Assign(ss: SymbolSet, line: string): (r: SymbolSet)
    requires '=' in line
  {
    var k := BeforeEquals(line);
    var v := SecondField(line);
    if ToLower(k) == "passthrough" && ToLower(v) == "true"
    then ss.(passthrough := true)
    else ss.(symbols := ss.symbols[k := v])
  }

  /** The text between the first '=' of a line and the next one, or the end of the line. */
  function SecondField(line: string): (v: string)
    requires '=' in line
  {
    var k := BeforeEquals(line);
    assert |k| < |line|;
    BeforeEquals(line[|k| + 1..])
  }

  datatype ParseState = ParseState(counterparty: string, table: Table)

  function ParseLine(st: ParseState, line: string): (r: ParseState) {
    var name := CurrentAfter(st.counterparty, line);
    if '=' !in line then st.(counterparty := name)
    else ParseState(name, st.table[name := Assign(SetIn(st.table, name), line)])
  }

  function SetIn(table: Table, name: string): (ss: SymbolSet) {
    if name in table then table[name] else EMPTY
  }

  function Parse(lines: seq<string>): (st: ParseState) {
    if lines == [] then ParseState("", map[])
    else ParseLine(Parse(lines[..|lines| - 1]), lines[|lines| - 1])
  }

  function FromBitfinexIn(table: Table, symbol: string, counterparty: string): (r: Option<string>) {
    if counterparty !in table then None
    else if table[counterparty].passthrough then Some(symbol)
    else if symbol in table[counterparty].symbols then Some(table[counterparty].symbols[symbol])
    else None
  }

  /** Every answer an inbound lookup may give, whichever order the map is scanned in. */
  predicate MayToBitfinex(table: Table, symbol: string, counterparty: string, r: Option<string>) {
    if counterparty !in table then r == None
    else if table[counterparty].passthrough then r == Some(symbol)
    else
      var symbols := table[counterparty].symbols;
      if r.None? then forall b :: b in symbols ==> symbols[b] != symbol
      else r.value in symbols && symbols[r.value] == symbol
  }

  class FileSymbology {
    var counterparty: string
    var counterparties: Table

    function State(): ParseState
      reads this
    {
      ParseState(counterparty, counterparties)
    }

    /** NewFileSymbology: the file is read line by line. */
    constructor (lines: seq<string>)
      ensures State() == Parse(lines)
    {
      counterparty, counterparties := "", map[];
      new;
      for i := 0 to |lines|
        invariant State() == Parse(lines[..i])
      {
        assert lines[..i + 1][..i] == lines[..i];
        ParseOne(lines[i]);
      }
      assert lines[..|lines|] == lines;
    }

    method ParseOne(line: string)
      modifies this
      ensures State() == ParseLine(old(State()), line)
    {
      if |line| >= 2 && line[0] == '[' && line[|line| - 1] == ']' {
        counterparty := line[1..|line| - 1];
      }
      if '=' !in line {
        return;
      }
      var k := BeforeEquals(line);
      var v := SecondField(line);
      var set_ := SetIn(counterparties, counterparty);
      if ToLower(k) == "passthrough" && ToLower(v) == "true" {
        set_ := set_.(passthrough := true);
      } else {
        set_ := set_.(symbols := set_.symbols[k := v]);
      }
      counterparties := counterparties[counterparty := set_];
    }

    method ToBitfinex(symbol: string, cp: string) returns (r: Option<string>)
      ensures MayToBitfinex(counterparties, symbol, cp, r)
    {
      if cp !in counterparties {
        return None;
      }
      var symset := counterparties[cp];
      if symset.passthrough {
        return Some(symbol);
      }
      var unseen := symset.symbols.Keys;
      while unseen != {}
        invariant unseen <= symset.symbols.Keys
        invariant forall b :: b in symset.symbols && b !in unseen ==> symset.symbols[b] != symbol
      {
        var bfx :| bfx in unseen;
        if symset.symbols[bfx] == symbol {
          return Some(bfx);
        }
        unseen := unseen - {bfx};
      }
      return None;
    }

    method FromBitfinex(symbol: string, cp: string) returns (r: Option<string>)
      ensures r == FromBitfinexIn(counterparties, symbol, cp)
      ensures forall s :: MayToBitfinex(counterparties, s, cp, Some(symbol)) ==> r == Some(s)
    {
      if cp !in counterparties {
        return None;
      }
      var symset := counterparties[cp];
      if symset.passthrough {
        return Some(symbol);
      }
      if symbol in symset.symbols {
        return Some(symset.symbols[symbol]);
      }
      return None;
    }
  }

  // ----- Sections are independent -----

  /** The counterparty in force after the given lines: the last header, or no name at all. */
  function Current(lines: seq<string>): (name: string) {
    if lines == [] then "" else CurrentAfter(Current(lines[..|lines| - 1]), lines[|lines| - 1])
  }

  /** The lines standing in sections of one counterparty, headers included, in file order. */
  function Section(lines: seq<string>, cp: string): (r: seq<string>) {
    if lines == [] then []
    else
      Section(lines[..|lines| - 1], cp) + if Current(lines) == cp then [lines[|lines| - 1]] else []
  }

  /** What a list of lines assigns, taken by themselves. */
  function Meaning(lines: seq<string>): (r: Option<SymbolSet>) {
    if lines == [] then None
    else
      var before := Meaning(lines[..|lines| - 1]);
      var last := lines[|lines| - 1];
      if '=' !in last then before
      else Some(Assign(OrEmpty(before), last))
  }

  /** A counterparty's set is determined by the lines of its own sections alone. */
  lemma {:induction false} SectionsAlone(lines: seq<string>, cp: string)
    ensures Parse(lines).counterparty == Current(lines)
    ensures (if cp in Parse(lines).table then Some(Parse(lines).table[cp]) else None)
         == Meaning(Section(lines, cp))
  {
    if lines != [] {
      var init, last := lines[..|lines| - 1], lines[|lines| - 1];
      SectionsAlone(init, cp);
      if Current(lines) == cp {
        var s := Section(lines, cp);
        assert s[..|s| - 1] == Section(init, cp) && s[|s| - 1] == last;
      } else {
        assert Section(lines, cp) == Section(init, cp);
      }
    }
  }

  /** Two files that agree on one counterparty's sections answer alike for it. */
  lemma LookupsLocal(a: seq<string>, b: seq<string>, cp: string, symbol: string, r: Option<string>)
    requires Section(a, cp) == Section(b, cp)
    ensures FromBitfinexIn(Parse(a).table, symbol, cp) == FromBitfinexIn(Parse(b).table, symbol, cp)
    ensures MayToBitfinex(Parse(a).table, symbol, cp, r) <==> MayToBitfinex(Parse(b).table, symbol, cp, r)
  {
    SectionsAlone(a, cp);
    SectionsAlone(b, cp);
  }

  // ----- Printing and parsing back -----

  const PASSTHROUGH := "passthrough"
  const TRUE := "true"

  datatype Row = Mapping(bfx: string, cp: string) | Passthrough

  datatype Block = Block(name: string, rows: seq<Row>)

  function RowLine(row: Row): (line: string) {
    match row
    case Mapping(bfx, cp) => bfx + "=" + cp
    case Passthrough => PASSTHROUGH + "=" + TRUE
  }

  function RowLines(rows: seq<Row>): (lines: seq<string>) {
    if rows == [] then [] else RowLines(rows[..|rows| - 1]) + [RowLine(rows[|rows| - 1])]
  }

  function BlockLines(b: Block): (lines: seq<string>) {
    ["[" + b.name + "]"] + RowLines(b.rows)
  }

  function Print(blocks: seq<Block>): (lines: seq<string>) {
    if blocks == [] then [] else Print(blocks[..|blocks| - 1]) + BlockLines(blocks[|blocks| - 1])
  }

  predicate WellFormedRow(row: Row) {
    row.Mapping? ==>
      && '=' !in row.bfx && '=' !in row.cp
      && !IsHeader(RowLine(row))
      && !(ToLower(row.bfx) == "passthrough" && ToLower(row.cp) == "true")
  }

  predicate WellFormedBlock(b: Block) {
    && '=' !in b.name
    && b.rows != []
    && (forall i :: 0 <= i < |b.rows| ==> WellFormedRow(b.rows[i]))
    && (forall i, j :: 0 <= i < j < |b.rows| && b.rows[i].Mapping? && b.rows[j].Mapping? ==>
          b.rows[i].bfx != b.rows[j].bfx)
  }

  predicate WellFormed(blocks: seq<Block>) {
    && (forall i :: 0 <= i < |blocks| ==> WellFormedBlock(blocks[i]))
    && (forall i, j :: 0 <= i < j < |blocks| ==> blocks[i].name != blocks[j].name)
  }

  function AfterRow(ss: SymbolSet, row: Row): (r: SymbolSet) {
    if row.Passthrough? then ss.(passthrough := true) else ss.(symbols := ss.symbols[row.bfx := row.cp])
  }

  /** The set holds exactly what the rows say. */
  ghost predicate Says(rows: seq<Row>, ss: SymbolSet) {
    && (ss.passthrough <==> Passthrough in rows)
    && (forall b, c :: Mapping(b, c) in rows <==> b in ss.symbols && ss.symbols[b] == c)
  }

  /** The two fields of an assignment line. */
  lemma PairFields(k: string, v: string)
    requires '=' !in k && '=' !in v
    ensures var line := k + "=" + v; '=' in line && BeforeEquals(line) == k && SecondField(line) == v
  {
    var line := k + "=" + v;
    assert line[|k|] == '=';
    BeforeEqualsOfPair(k, v);
    assert line[|k| + 1..] == v;
    BeforeEqualsOfPlain(v);
  }

  lemma RowAssigns(ss: SymbolSet, row: Row)
    requires WellFormedRow(row)
    ensures '=' in RowLine(row)
    ensures Assign(ss, RowLine(row)) == AfterRow(ss, row)
  {
    match row
    case Mapping(bfx, cp) => PairFields(bfx, cp);
    case Passthrough => PassthroughAssigns(ss);
  }

  lemma PassthroughAssigns(ss: SymbolSet)
    ensures '=' in RowLine(Passthrough)
    ensures Assign(ss, RowLine(Passthrough)) == ss.(passthrough := true)
  {
    PairFields(PASSTHROUGH, TRUE);
    LowerIsFixed(PASSTHROUGH);
    LowerIsFixed(TRUE);
  }

  lemma LowerIsFixed(s: string)
    requires forall i :: 0 <= i < |s| ==> !('A' <= s[i] <= 'Z')
    ensures ToLower(s) == s
  {
  }

  function OrEmpty(m: Option<SymbolSet>): (ss: SymbolSet) {
    if m.Some? then m.value else EMPTY
  }

  lemma MeaningSnoc(lines: seq<string>, line: string)
    ensures Meaning(lines + [line])
         == if '=' !in line then Meaning(lines) else Some(Assign(OrEmpty(Meaning(lines)), line))
  {
    assert (lines + [line])[..|lines|] == lines;
  }

  lemma RowMeaning(b: Block, n: nat)
    requires WellFormedBlock(b) && 0 < n <= |b.rows|
    ensures Meaning(BlockPrefix(b, n)) == Some(AfterRow(OrEmpty(Meaning(BlockPrefix(b, n - 1))), b.rows[n - 1]))
  {
    var row := b.rows[n - 1];
    BlockPrefixSnoc(b, n);
    MeaningSnoc(BlockPrefix(b, n - 1), RowLine(row));
    RowAssigns(OrEmpty(Meaning(BlockPrefix(b, n - 1))), row);
  }

  lemma HeaderMeaning(b: Block)
    requires WellFormedBlock(b)
    ensures Meaning(BlockPrefix(b, 0)) == None
  {
    var header := "[" + b.name + "]";
    MeaningSnoc([], header);
    assert BlockPrefix(b, 0) == [] + [header];
  }

  /** The lines of one block mean what its rows say. */
  lemma {:induction false} BlockMeaning(b: Block, n: nat)
    requires WellFormedBlock(b) && n <= |b.rows|
    ensures Says(b.rows[..n], OrEmpty(Meaning(BlockPrefix(b, n))))
    ensures n > 0 ==> Meaning(BlockPrefix(b, n)).Some?
  {
    if n == 0 {
      HeaderMeaning(b);
    } else {
      BlockMeaning(b, n - 1);
      RowMeaning(b, n);
      SaysAppend(b.rows[..n - 1], b.rows[n - 1], OrEmpty(Meaning(BlockPrefix(b, n - 1))));
      assert b.rows[..n] == b.rows[..n - 1] + [b.rows[n - 1]];
    }
  }

  lemma SaysAppend(rows: seq<Row>, row: Row, ss: SymbolSet)
    requires Says(rows, ss)
    requires row.Mapping? ==> forall i :: 0 <= i < |rows| && rows[i].Mapping? ==> rows[i].bfx != row.bfx
    ensures Says(rows + [row], AfterRow(ss, row))
  {
    assert forall r :: r in rows + [row] <==> r in rows || r == row;
  }

  lemma SectionSnoc(lines: seq<string>, line: string, cp: string)
    ensures Current(lines + [line]) == CurrentAfter(Current(lines), line)
    ensures Section(lines + [line], cp)
         == Section(lines, cp) + if CurrentAfter(Current(lines), line) == cp then [line] else []
  {
    assert (lines + [line])[..|lines|] == lines;
  }

  /** The header and the first n rows of a block. */
  function BlockPrefix(b: Block, n: nat): (lines: seq<string>)
    requires n <= |b.rows|
  {
    ["[" + b.name + "]"] + RowLines(b.rows[..n])
  }

  lemma BlockPrefixSnoc(b: Block, n: nat)
    requires 0 < n <= |b.rows|
    ensures BlockPrefix(b, n) == BlockPrefix(b, n - 1) + [RowLine(b.rows[n - 1])]
  {
    assert b.rows[..n][..n - 1] == b.rows[..n - 1];
  }

  /** Appending a block's lines adds them to its own counterparty's section and to no other. */
  lemma {:induction false} SectionAppendBlock(lines: seq<string>, b: Block, n: nat, cp: string)
    requires WellFormedBlock(b) && n <= |b.rows|
    ensures Current(lines + BlockPrefix(b, n)) == b.name
    ensures Section(lines + BlockPrefix(b, n), cp)
         == Section(lines, cp) + if cp == b.name then BlockPrefix(b, n) else []
  {
    if n == 0 {
      var header := "[" + b.name + "]";
      assert BlockPrefix(b, 0) == [header];
      SectionSnoc(lines, header, cp);
      assert header[1..|header| - 1] == b.name;
    } else {
      var row := b.rows[n - 1];
      assert WellFormedRow(row) && !IsHeader(RowLine(row));
      SectionAppendBlock(lines, b, n - 1, cp);
      BlockPrefixSnoc(b, n);
      SectionSnoc(lines + BlockPrefix(b, n - 1), RowLine(row), cp);
      assert lines + BlockPrefix(b, n) == lines + BlockPrefix(b, n - 1) + [RowLine(row)];
    }
  }

  lemma SectionOfSnoc(blocks: seq<Block>, b: Block, cp: string)
    requires WellFormedBlock(b)
    ensures Section(Print(blocks + [b]), cp)
         == Section(Print(blocks), cp) + if cp == b.name then BlockLines(b) else []
  {
    assert (blocks + [b])[..|blocks|] == blocks;
    SectionAppendBlock(Print(blocks), b, |b.rows|, cp);
    assert b.rows[..|b.rows|] == b.rows;
  }

  lemma {:induction false} SectionOfStranger(blocks: seq<Block>, cp: string)
    requires WellFormed(blocks)
    requires forall i :: 0 <= i < |blocks| ==> blocks[i].name != cp
    ensures Section(Print(blocks), cp) == []
  {
    if blocks != [] {
      var init, b := blocks[..|blocks| - 1], blocks[|blocks| - 1];
      assert blocks == init + [b];
      SectionOfStranger(init, cp);
      SectionOfSnoc(init, b, cp);
    }
  }

  lemma {:induction false} SectionOfBlock(blocks: seq<Block>, i: nat)
    requires WellFormed(blocks) && i < |blocks|
    ensures Section(Print(blocks), blocks[i].name) == BlockLines(blocks[i])
  {
    var last := |blocks| - 1;
    var init, b := blocks[..last], blocks[last];
    assert blocks == init + [b];
    SectionOfSnoc(init, b, blocks[i].name);
    if i == last {
      SectionOfStranger(init, b.name);
    } else {
      SectionOfBlock(init, i);
      assert init[i] == blocks[i] && blocks[i].name != b.name;
    }
  }

  lemma PrintedBlockParsed(blocks: seq<Block>, i: nat)
    requires WellFormed(blocks) && i < |blocks|
    ensures var table := Parse(Print(blocks)).table;
            blocks[i].name in table && Says(blocks[i].rows, table[blocks[i].name])
  {
    var b := blocks[i];
    SectionsAlone(Print(blocks), b.name);
    SectionOfBlock(blocks, i);
    BlockMeaning(b, |b.rows|);
    assert b.rows[..|b.rows|] == b.rows;
  }

  lemma OnlyPrintedParsed(blocks: seq<Block>, name: string)
    requires WellFormed(blocks)
    requires forall i :: 0 <= i < |blocks| ==> blocks[i].name != name
    ensures name !in Parse(Print(blocks)).table
  {
    SectionsAlone(Print(blocks), name);
    SectionOfStranger(blocks, name);
  }

  /** Printing a well-formed master and parsing it back gives exactly the same sets. */
  lemma PrintParse(blocks: seq<Block>)
    requires WellFormed(blocks)
    ensures forall name :: name in Parse(Print(blocks)).table <==>
              exists i :: 0 <= i < |blocks| && blocks[i].name == name
    ensures forall i :: 0 <= i < |blocks| ==> Says(blocks[i].rows, Parse(Print(blocks)).table[blocks[i].name])
  {
    var table := Parse(Print(blocks)).table;
    forall i | 0 <= i < |blocks|
      ensures blocks[i].name in table && Says(blocks[i].rows, table[blocks[i].name])
    {
      PrintedBlockParsed(blocks, i);
    }
    forall name | name in table
      ensures exists i :: 0 <= i < |blocks| && blocks[i].name == name
    {
      if forall i :: 0 <= i < |blocks| ==> blocks[i].name != name {
        OnlyPrintedParsed(blocks, name);
      }
    }
  }

  // ----- Single lines -----

  /** A section of one assignment. */
  function OneLine(cp: string, line: string): (table: Table) {
    Parse(["[" + cp + "]", line]).table
  }

  lemma OneLineParsed(cp: string, line: string)
    requires '=' !in cp && '=' in line && !IsHeader(line)
    ensures OneLine(cp, line) == map[cp := Assign(EMPTY, line)]
  {
    var header := "[" + cp + "]";
    assert [header, line][..1] == [header] && [header][..0] == [];
    assert header[1..|header| - 1] == cp;
    assert Parse([header]) == ParseState(cp, map[]);
  }

  /** Passing through is asked for in any mix of cases, and then every symbol stands for itself both ways. */
  lemma PassthroughIdentity(cp: string, k: string, v: string, symbol: string, r: Option<string>)
    requires '=' !in cp && '=' !in k && '=' !in v && !IsHeader(k + "=" + v)
    requires ToLower(k) == "passthrough" && ToLower(v) == "true"
    ensures FromBitfinexIn(OneLine(cp, k + "=" + v), symbol, cp) == Some(symbol)
    ensures MayToBitfinex(OneLine(cp, k + "=" + v), symbol, cp, r) <==> r == Some(symbol)
  {
    PairFields(k, v);
    OneLineParsed(cp, k + "=" + v);
  }

  /** Only the first two fields of a line count. */
  lemma FurtherFieldsIgnored(k: string, v: string, rest: string, ss: SymbolSet)
    requires '=' !in k && '=' !in v
    ensures Assign(ss, k + "=" + v + "=" + rest) == Assign(ss, k + "=" + v)
  {
    var line := k + "=" + v + "=" + rest;
    PairFields(k, v);
    assert line[|k|] == '=';
    assert line == k + "=" + (v + "=" + rest);
    BeforeEqualsOfPair(k, v + "=" + rest);
    assert line[|k| + 1..] == v + "=" + rest;
    BeforeEqualsOfPair(v, rest);
  }

  // ----- Two-way lookup -----

  /** Translating outbound after a successful inbound translation restores the symbol. */
  lemma InboundThenOutbound(table: Table, symbol: string, cp: string, bfx: string)
    requires MayToBitfinex(table, symbol, cp, Some(bfx))
    ensures FromBitfinexIn(table, bfx, cp) == Some(symbol)
  {
  }

  ghost predicate Injective(m: map<string, string>) {
    forall a, b :: a in m && b in m && m[a] == m[b] ==> a == b
  }

  /** Every venue symbol translated outbound is what its inbound translation gives, for every scan order. */
  ghost predicate OutboundReversible(table: Table, cp: string) {
    forall bfx, symbol, r :: FromBitfinexIn(table, bfx, cp) == Some(symbol) && MayToBitfinex(table, symbol, cp, r) ==>
      r == Some(bfx)
  }

  /**
   The converse round trip: it holds for counterparties that are unknown or pass symbols through,
   and for any other one exactly when its map is injective.
   */
  lemma OutboundThenInboundExactly(table: Table, cp: string)
    ensures OutboundReversible(table, cp) <==> (cp in table && !table[cp].passthrough ==> Injective(table[cp].symbols))
  {
    if OutboundReversible(table, cp) && cp in table && !table[cp].passthrough {
      var m := table[cp].symbols;
      forall a, b | a in m && b in m && m[a] == m[b]
        ensures a == b
      {
        assert FromBitfinexIn(table, a, cp) == Some(m[a]);
        assert MayToBitfinex(table, m[a], cp, Some(b));
      }
    }
  }
}
