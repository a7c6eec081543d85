/** The item form's list fields (assignees, dependencies, tags): a text box
    shows the list joined with ", ", and typing into it stores the
    comma-separated pieces, trimmed, with the empty ones dropped. */
module CommaList {
  import opened Roadmap
  import opened Seqs
  import opened Text

  /** `filter(Boolean)` on strings: the empty string is falsy. */
  function NonEmpty(): string -> bool {
    (s: string) => s != []
  }

  function TrimEach(): string -> string {
    (s: string) => Trim(s)
  }

  /** `text.split(',').map(s => s.trim()).filter(Boolean)`. */
  function ParseList(text: string): seq<string> {
    Filter(Map(Split(text, ','), TrimEach()), NonEmpty())
  }

  /** `list?.join(', ') || ''`: an absent list shows as the empty text. */
  function DisplayList(list: Option<seq<string>>): string {
    match list
    case None => ""
    case Some(xs) => Join(xs, ", ")
  }

  /** What `ParseList` can produce: non-empty, trimmed, comma-free pieces. */
  predicate WellFormedEntry(x: string) {
    x != [] && IsTrimmed(x) && ',' !in x
  }

  /** Every parsed element is non-empty, is its own trim and holds no comma. */
  lemma ParsedWellFormed(text: string)
    ensures forall x :: x in ParseList(text) ==> WellFormedEntry(x)
  {
    var pieces := Split(text, ',');
    var trimmed := Map(pieces, TrimEach());
    forall x | x in ParseList(text)
      ensures WellFormedEntry(x)
    {
      assert x in trimmed && x != [];
      MapImage(pieces, TrimEach(), x);
      var piece :| piece in pieces && TrimEach()(piece) == x;
      TrimmedPiece(piece);
    }
  }

  /** A piece between commas, trimmed. */
  lemma TrimmedPiece(piece: string)
    requires ',' !in piece
    ensures IsTrimmed(Trim(piece)) && ',' !in Trim(piece)
  {
  }

  /** Parsing splits at a comma: the elements before it, then those after,
      in left-to-right order. */
  lemma ParseAtComma(a: string, b: string)
    ensures ParseList(a + [','] + b) == ParseList(a) + ParseList(b)
  {
    SplitAtSep(a, b, ',');
    MapConcat(Split(a, ','), Split(b, ','), TrimEach());
    FilterConcat(Map(Split(a, ','), TrimEach()), Map(Split(b, ','), TrimEach()), NonEmpty());
  }

  /** White space in front of the text changes nothing. */
  lemma ParseSkipsLeadingSpace(c: char, s: string)
    requires IsSpace(c)
    ensures ParseList([c] + s) == ParseList(s)
  {
    var rest := Split(s, ',');
    SplitCons(c, s, ',');
    MapCons([c] + rest[0], rest[1..], TrimEach());
    MapCons(rest[0], rest[1..], TrimEach());
    TrimSkipsLeadingSpace(c, rest[0]);
    HeadTail(rest);
    assert Map(Split([c] + s, ','), TrimEach()) == Map(rest, TrimEach());
  }

  /** A text holding nothing but white space and commas parses to the
      empty list. */
  lemma {:induction false} ParseBlank(text: string)
    requires forall i :: 0 <= i < |text| ==> IsSpace(text[i]) || text[i] == ','
    ensures ParseList(text) == []
  {
    var pieces := Split(text, ',');
    forall piece | piece in pieces
      ensures Trim(piece) == []
    {
      BlankPiece(text, piece);
      TrimEmptyIffBlank(piece);
    }
    var trimmed := Map(pieces, TrimEach());
    forall x | x in trimmed
      ensures !NonEmpty()(x)
    {
      var i :| 0 <= i < |trimmed| && trimmed[i] == x;
      assert pieces[i] in pieces;
    }
    FilterNoneKept(trimmed, NonEmpty());
  }

  /** The pieces of a text of white space and commas are white space. */
  lemma {:induction false} BlankPiece(text: string, piece: string)
    requires forall i :: 0 <= i < |text| ==> IsSpace(text[i]) || text[i] == ','
    requires piece in Split(text, ',')
    ensures IsBlank(piece)
    decreases |text|
  {
    if text != [] {
      var rest := Split(text[1..], ',');
      assert forall i :: 0 <= i < |text[1..]| ==> IsSpace(text[1..][i]) || text[1..][i] == ',';
      if text[0] == ',' {
        if piece != [] || piece in rest {
          assert piece in rest;
          BlankPiece(text[1..], piece);
        }
      } else if piece == [text[0]] + rest[0] {
        BlankPiece(text[1..], rest[0]);
      } else {
        assert piece in rest;
        BlankPiece(text[1..], piece);
      }
    }
  }

  /** A single well-formed entry parses to itself. */
  lemma ParseOne(x: string)
    requires WellFormedEntry(x)
    ensures ParseList(x) == [x]
  {
    SplitWithoutSep(x, ',');
    TrimOfTrimmed(x);
  }

  /** Round trip: parsing the displayed list gives the list back, provided
      its entries are non-empty, trimmed and comma-free. */
  lemma {:induction false} ParseJoin(xs: seq<string>)
    requires forall x :: x in xs ==> WellFormedEntry(x)
    ensures ParseList(Join(xs, ", ")) == xs
    decreases |xs|
  {
    if xs == [] {
      assert ParseList("") == [] by {
        assert Split("", ',') == [""];
        assert Map([""], TrimEach()) == [""];
      }
    } else if |xs| == 1 {
      ParseOne(xs[0]);
    } else {
      JoinCons(xs);
      ParseCons(xs[0], Join(xs[1..], ", "));
      ParseJoin(xs[1..]);
      HeadTail(xs);
    }
  }

  /** The shown text of two or more entries: the first, a comma, a space and
      the rest. */
  lemma JoinCons(xs: seq<string>)
    requires |xs| > 1
    ensures Join(xs, ", ") == xs[0] + [','] + ([' '] + Join(xs[1..], ", "))
  {
    var rest := Join(xs[1..], ", ");
    assert [','] + [' '] == ", ";
    AppendAssoc(xs[0], [','], [' ']);
    AppendAssoc(xs[0] + [','], [' '], rest);
  }

  /** A well-formed entry, a comma and a space in front of a text add that
      entry in front of the text's list. */
  lemma ParseCons(x: string, rest: string)
    requires WellFormedEntry(x)
    ensures ParseList(x + [','] + ([' '] + rest)) == [x] + ParseList(rest)
  {
    ParseAtComma(x, [' '] + rest);
    ParseOne(x);
    ParseSkipsLeadingSpace(' ', rest);
  }

  /** The form's three list fields, each absent or a list. */
  datatype ListField = Assignees | Dependencies | Tags

  datatype FormLists = FormLists(assignees: Option<seq<string>>, dependencies: Option<seq<string>>, tags: Option<seq<string>>)

  function Get(form: FormLists, field: ListField): Option<seq<string>> {
    match field
    case Assignees => form.assignees
    case Dependencies => form.dependencies
    case Tags => form.tags
  }

  /** Sets one field and leaves the other two. */
  function Put(form: FormLists, field: ListField, value: Option<seq<string>>): (r: FormLists)
    ensures Get(r, field) == value
    ensures forall g :: g != field ==> Get(r, g) == Get(form, g)
  {
    match field
    case Assignees => form.(assignees := value)
    case Dependencies => form.(dependencies := value)
    case Tags => form.(tags := value)
  }

  /** A field's `onChange`: the typed text, parsed, becomes that field. */
  function Edit(form: FormLists, field: ListField, text: string): (r: FormLists)
    ensures Get(r, field) == Some(ParseList(text))
    ensures forall g :: g != field ==> Get(r, g) == Get(form, g)
  {
    Put(form, field, Some(ParseList(text)))
  }

  /** All three fields follow the same rule: committing the text a field
      shows leaves a well-formed list as it was, turns an absent one into the
      empty list, and touches no other field. */
  lemma EditShownText(form: FormLists, field: ListField)
    requires Get(form, field).Some? ==> forall x :: x in Get(form, field).value ==> WellFormedEntry(x)
    ensures var r := Edit(form, field, DisplayList(Get(form, field)));
      && Get(r, field) == (if Get(form, field).None? then Some([]) else Get(form, field))
      && forall g :: g != field ==> Get(r, g) == Get(form, g)
  {
    match Get(form, field)
    case None =>
      ParseJoin([]);
    case Some(xs) =>
      ParseJoin(xs);
  }
}
