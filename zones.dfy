/** The timeline's drop zones. Every (category, quarter) cell registers a
    droppable whose id is `${category}-${quarter}`; `handleDragEnd` recovers
    the cell from the id of the zone an item is dropped on. */
module Zones {
  import opened Roadmap
  import opened Text

  datatype Cell = Cell(category: string, quarter: Quarter)

  /** The zone id of a cell. */
  function ZoneId(c: string, q: Quarter): (r: string)
    ensures |r| == |c| + 3 && r[..|c|] == c && r[|c|] == '-' && r[|c| + 1..] == QuarterName(q)
  {
    c + "-" + QuarterName(q)
  }

  /** `isValidCategory(c) && isValidQuarter(q)`: the category is a settings
      key and the quarter one of the four. */
  function ValidCell(c: string, q: string, keys: seq<string>): Option<Cell> {
    var quarter := ParseQuarter(q);
    if c in keys && quarter.Some? then Some(Cell(c, quarter.value)) else None
  }

  /** The decoding as written: `const [c, q] = id.split('-')`, so only the
      first two '-'-separated fields are looked at (`q` is `undefined` when
      there is no '-'). */
  function DecodeZoneAsWritten(id: string, keys: seq<string>): (r: Option<Cell>)
    ensures r.Some? ==> '-' !in r.value.category && r.value.category in keys
  {
    var parts := Split(id, '-');
    if |parts| >= 2 then ValidCell(parts[0], parts[1], keys) else None
  }

  /** A category id without '-' decodes from its own zone id. */
  lemma AsWrittenRoundTrip(c: string, q: Quarter, keys: seq<string>)
    requires '-' !in c && c in keys
    ensures DecodeZoneAsWritten(ZoneId(c, q), keys) == Some(Cell(c, q))
  {
    SplitAtSep(c, QuarterName(q), '-');
    SplitWithoutSep(c, '-');
    SplitWithoutSep(QuarterName(q), '-');
  }

  /** A category id holding '-' never decodes from its own zone id: a drop
      onto one of its zones cannot land in it. */
  lemma AsWrittenMissesHyphenated(c: string, q: Quarter, keys: seq<string>)
    requires '-' in c
    ensures var r := DecodeZoneAsWritten(ZoneId(c, q), keys);
      r.None? || r.value.category != c
  {
  }

  /** The drop onto the Q1 zone of a category "A-Q2" is sent to the Q2 cell
      of a category "A" when both exist. */
  lemma AsWrittenMisroutes()
    ensures DecodeZoneAsWritten(ZoneId("A-Q2", Q1), ["A", "A-Q2"]) == Some(Cell("A", Q2))
  {
    SplitWithoutSep("A", '-');
    SplitWithoutSep("Q2", '-');
    SplitWithoutSep("Q1", '-');
    SplitAtSep("Q2", "Q1", '-');
    SplitAtSep("A", "Q2" + ['-'] + "Q1", '-');
    assert ZoneId("A-Q2", Q1) == "A" + ['-'] + ("Q2" + ['-'] + "Q1");
  }

  /** The text before the last `sep` and the text after it, if `s` holds one. */
  function SplitLast(s: string, sep: char): (r: Option<(string, string)>)
    ensures r.Some? ==> s == r.value.0 + [sep] + r.value.1 && sep !in r.value.1
    ensures r.None? ==> sep !in s
  {
    if s == [] then None
    else if s[|s| - 1] == sep then Some((s[..|s| - 1], ""))
    else
      match SplitLast(s[..|s| - 1], sep)
      case None =>
        assert s == s[..|s| - 1] + [s[|s| - 1]];
        None
      case Some((a, b)) =>
        assert s == s[..|s| - 1] + [s[|s| - 1]];
        Some((a, b + [s[|s| - 1]]))
  }

  /** Splitting at the last separator finds the one before a separator-free
      suffix. */
  lemma {:induction false} SplitLastOf(a: string, b: string, sep: char)
    requires sep !in b
    ensures SplitLast(a + [sep] + b, sep) == Some((a, b))
    decreases |b|
  {
    var s := a + [sep] + b;
    if b == [] {
      assert s[..|s| - 1] == a;
    } else {
      assert s[..|s| - 1] == a + [sep] + b[..|b| - 1];
      SplitLastOf(a, b[..|b| - 1], sep);
      assert b[..|b| - 1] + [b[|b| - 1]] == b;
    }
  }

  /** The decoding the zone ids call for: the quarter is the field after the
      last '-', the category everything before it. */
  function DecodeZone(id: string, keys: seq<string>): Option<Cell> {
    match SplitLast(id, '-')
    case None => None
    case Some((c, q)) => ValidCell(c, q, keys)
  }

  /** Every cell of a known category decodes from its zone id, whatever the
      category id holds ... */
  lemma ZoneRoundTrip(c: string, q: Quarter, keys: seq<string>)
    requires c in keys
    ensures DecodeZone(ZoneId(c, q), keys) == Some(Cell(c, q))
  {
    SplitLastOf(c, QuarterName(q), '-');
  }

  /** ... and an id decodes only if it is the zone id of a known cell. */
  lemma DecodeZoneSound(id: string, keys: seq<string>)
    ensures DecodeZone(id, keys).Some? ==>
      var cell := DecodeZone(id, keys).value;
      cell.category in keys && id == ZoneId(cell.category, cell.quarter)
  {
  }

  /** Both decodings agree on the zones of category ids without '-'. */
  lemma DecodersAgree(c: string, q: Quarter, keys: seq<string>)
    requires '-' !in c && c in keys
    ensures DecodeZone(ZoneId(c, q), keys) == DecodeZoneAsWritten(ZoneId(c, q), keys)
  {
    ZoneRoundTrip(c, q, keys);
    AsWrittenRoundTrip(c, q, keys);
  }

  /** Which reading of a zone id a drop uses: the one `handleDragEnd` is
      written with, or the one the zone ids call for. */
  datatype ZoneRule = AsWritten | Corrected

  function DecodeZoneBy(id: string, keys: seq<string>, rule: ZoneRule): Option<Cell> {
    match rule
    case AsWritten => DecodeZoneAsWritten(id, keys)
    case Corrected => DecodeZone(id, keys)
  }
}
