/** The JavaScript string operations the roadmap code uses: `trim`, `split`
    on one character, `join`, `toUpperCase`/`toLowerCase` (ASCII letters),
    `replace(/_/g, ' ')` and `replace(/\s+/g, '_')`. */
module Text {

  /** JavaScript's white space and line terminators: what `trim` strips and
      what `\s` matches. */
  predicate IsSpace(c: char) {
    c == ' ' || c == '\t' || c == '\n' || c == '\r' || c == '\U{B}' || c == '\U{C}'
    || c == '\U{A0}' || c == '\U{1680}' || ('\U{2000}' <= c <= '\U{200A}')
    || c == '\U{2028}' || c == '\U{2029}' || c == '\U{202F}' || c == '\U{205F}'
    || c == '\U{3000}' || c == '\U{FEFF}'
  }

  /** No character of `s` is white space. */
  predicate NoSpace(s: string) {
    forall i :: 0 <= i < |s| ==> !IsSpace(s[i])
  }

  predicate IsBlank(s: string) {
    forall i :: 0 <= i < |s| ==> IsSpace(s[i])
  }

  /** A string `trim` leaves alone. */
  predicate IsTrimmed(s: string) {
    s == [] || (!IsSpace(s[0]) && !IsSpace(s[|s| - 1]))
  }

  /** Drops the leading white space: what is left is a suffix that is empty
      or starts with a non-space, and everything dropped was white space. */
  function TrimStart(s: string): (r: string)
    ensures |r| <= |s| && r == s[|s| - |r|..]
    ensures r == [] || !IsSpace(r[0])
    ensures forall i :: 0 <= i < |s| - |r| ==> IsSpace(s[i])
  {
    if s != [] && IsSpace(s[0]) then TrimStart(s[1..]) else s
  }

  /** Drops the trailing white space. */
  function TrimEnd(s: string): (r: string)
    ensures |r| <= |s| && r == s[..|r|]
    ensures r == [] || !IsSpace(r[|r| - 1])
    ensures forall i :: |r| <= i < |s| ==> IsSpace(s[i])
  {
    if s != [] && IsSpace(s[|s| - 1]) then TrimEnd(s[..|s| - 1]) else s
  }

  /** `s.trim()`. */
  function Trim(s: string): (r: string)
    ensures IsTrimmed(r)
    ensures forall c :: c in r ==> c in s
  {
    var t := TrimStart(s);
    var r := TrimEnd(t);
    assert r == [] || !IsSpace(r[0]) by {
      if r != [] { assert r[0] == t[0]; }
    }
    assert forall c :: c in r ==> c in t;
    r
  }

  /** The trim is the stretch of `s` left once the white space at both ends
      is cut off: a slice of `s` with only white space before and after it
      (and, by `IsTrimmed`, none at its own ends). */
  lemma TrimIsSlice(s: string)
    ensures exists i, j ::
      && 0 <= i <= j <= |s| && Trim(s) == s[i..j]
      && (forall k :: 0 <= k < i ==> IsSpace(s[k]))
      && (forall k :: j <= k < |s| ==> IsSpace(s[k]))
  {
    var i := |s| - |TrimStart(s)|;
    var j := i + |Trim(s)|;
    TrimBounds(s, i, j);
  }

  /** `TrimIsSlice`, at the bounds the two halves of the trim leave. */
  lemma TrimBounds(s: string, i: int, j: int)
    requires i == |s| - |TrimStart(s)| && j == i + |Trim(s)|
    ensures 0 <= i <= j <= |s| && Trim(s) == s[i..j]
    ensures forall k :: 0 <= k < i ==> IsSpace(s[k])
    ensures forall k :: j <= k < |s| ==> IsSpace(s[k])
  {
    var t := TrimStart(s);
    var r := TrimEnd(t);
    assert Trim(s) == r;
    assert t == s[i..] && r == t[..|r|];
    forall k | j <= k < |s| ensures IsSpace(s[k]) {
      assert s[k] == t[k - i];
    }
  }

  /** A trimmed string is its own trim. */
  lemma TrimOfTrimmed(s: string)
    requires IsTrimmed(s)
    ensures Trim(s) == s
  {
  }

  /** Leading white space does not change the trim. */
  lemma TrimSkipsLeadingSpace(c: char, s: string)
    requires IsSpace(c)
    ensures Trim([c] + s) == Trim(s)
  {
    assert ([c] + s)[1..] == s;
  }

  /** The trim is empty exactly when the string is all white space. */
  lemma TrimEmptyIffBlank(s: string)
    ensures Trim(s) == [] <==> IsBlank(s)
  {
    var t := TrimStart(s);
    if t != [] {
      assert !IsSpace(s[|s| - |t|]);
    }
  }

  /** `s.split(sep)`: the maximal sep-free pieces between separators; there is
      always at least one piece. */
  function Split(s: string, sep: char): (r: seq<string>)
    ensures |r| >= 1
    ensures forall piece :: piece in r ==> sep !in piece
  {
    if s == [] then [""]
    else
      var rest := Split(s[1..], sep);
      if s[0] == sep then [""] + rest
      else
        assert rest[0] in rest;
        assert forall piece :: piece in rest[1..] ==> piece in rest;
        [[s[0]] + rest[0]] + rest[1..]
  }

  /** A first character other than the separator joins the first piece. */
  lemma SplitCons(c: char, s: string, sep: char)
    requires c != sep
    ensures Split([c] + s, sep) == [[c] + Split(s, sep)[0]] + Split(s, sep)[1..]
  {
    assert ([c] + s)[1..] == s;
  }

  /** A string without the separator is a single piece. */
  lemma {:induction false} SplitWithoutSep(s: string, sep: char)
    requires sep !in s
    ensures Split(s, sep) == [s]
  {
    if s != [] {
      SplitWithoutSep(s[1..], sep);
      assert s == [s[0]] + s[1..];
    }
  }

  /** Splitting at a separator splits the pieces. */
  lemma {:induction false} SplitAtSep(a: string, b: string, sep: char)
    ensures Split(a + [sep] + b, sep) == Split(a, sep) + Split(b, sep)
  {
    if a == [] {
      assert a + [sep] + b == [sep] + b;
      assert ([sep] + b)[1..] == b;
    } else {
      assert (a + [sep] + b)[1..] == a[1..] + [sep] + b;
      SplitAtSep(a[1..], b, sep);
    }
  }

  /** `xs.join(sep)`. */
  function Join(xs: seq<string>, sep: string): string {
    if xs == [] then ""
    else if |xs| == 1 then xs[0]
    else xs[0] + sep + Join(xs[1..], sep)
  }

  /** Joining the pieces with the separator gives back the string. */
  lemma {:induction false} JoinSplit(s: string, sep: char)
    ensures Join(Split(s, sep), [sep]) == s
  {
    if s != [] {
      JoinSplit(s[1..], sep);
      var rest := Split(s[1..], sep);
      if s[0] == sep {
        assert ([""] + rest)[1..] == rest;
      } else {
        assert ([[s[0]] + rest[0]] + rest[1..])[1..] == rest[1..];
        if |rest| > 1 {
          assert rest == [rest[0]] + rest[1..];
        }
      }
    }
  }

  function UpperChar(c: char): char {
    if 'a' <= c <= 'z' then (c as int - 32) as char else c
  }

  function LowerChar(c: char): char {
    if 'A' <= c <= 'Z' then (c as int + 32) as char else c
  }

  /** `s.toUpperCase()` on ASCII letters. */
  function ToUpper(s: string): (r: string)
    ensures |r| == |s|
    ensures forall i :: 0 <= i < |s| ==> r[i] == UpperChar(s[i])
  {
    if s == [] then [] else [UpperChar(s[0])] + ToUpper(s[1..])
  }

  /** `s.toLowerCase()` on ASCII letters. */
  function ToLower(s: string): (r: string)
    ensures |r| == |s|
    ensures forall i :: 0 <= i < |s| ==> r[i] == LowerChar(s[i])
  {
    if s == [] then [] else [LowerChar(s[0])] + ToLower(s[1..])
  }

  /** `s.replace(/x/g, y)` for one character `x`. */
  function ReplaceChar(s: string, x: char, y: char): (r: string)
    ensures |r| == |s|
    ensures forall i :: 0 <= i < |s| ==> r[i] == (if s[i] == x then y else s[i])
  {
    if s == [] then [] else [if s[0] == x then y else s[0]] + ReplaceChar(s[1..], x, y)
  }

  /** `s.replace(/\s+/g, sub)`: every maximal run of white space becomes one
      `sub`; the result is empty only for the empty string. */
  function ReplaceSpaceRuns(s: string, sub: char): (r: string)
    ensures |r| <= |s|
    ensures r == [] <==> s == []
  {
    if s == [] then []
    else if IsSpace(s[0]) then [sub] + ReplaceSpaceRuns(TrimStart(s[1..]), sub)
    else [s[0]] + ReplaceSpaceRuns(s[1..], sub)
  }

  /** When `sub` is not white space, `s.replace(/\s+/g, sub)` holds none. */
  lemma {:induction false} ReplaceSpaceRunsLeavesNoSpace(s: string, sub: char)
    requires !IsSpace(sub)
    ensures NoSpace(ReplaceSpaceRuns(s, sub))
    decreases |s|
  {
    if s != [] {
      var head := if IsSpace(s[0]) then sub else s[0];
      var tail := if IsSpace(s[0]) then TrimStart(s[1..]) else s[1..];
      ReplaceSpaceRunsLeavesNoSpace(tail, sub);
      ConsNoSpace(head, ReplaceSpaceRuns(tail, sub));
    }
  }

  /** A non-space character before a string without white space. */
  lemma ConsNoSpace(head: char, rest: string)
    requires !IsSpace(head) && NoSpace(rest)
    ensures NoSpace([head] + rest)
  {
    forall i | 0 < i < |rest| + 1 ensures !IsSpace(([head] + rest)[i]) {
      assert ([head] + rest)[i] == rest[i - 1];
    }
  }

  /** Every character `s.replace(/\s+/g, sub)` gives is `sub` or one of `s`. */
  lemma {:induction false} ReplaceSpaceRunsChars(s: string, sub: char)
    ensures forall c :: c in ReplaceSpaceRuns(s, sub) ==> c == sub || c in s
    decreases |s|
  {
    if s != [] {
      var head := if IsSpace(s[0]) then sub else s[0];
      var tail := if IsSpace(s[0]) then TrimStart(s[1..]) else s[1..];
      ReplaceSpaceRunsChars(tail, sub);
      assert forall c :: c in tail ==> c in s by {
        SuffixChars(s, tail);
      }
      assert ReplaceSpaceRuns(s, sub) == [head] + ReplaceSpaceRuns(tail, sub);
    }
  }

  /** The characters of a proper suffix are characters of the string. */
  lemma SuffixChars(s: string, t: string)
    requires |t| < |s| && t == s[|s| - |t|..]
    ensures forall c :: c in t ==> c in s
  {
    forall c | c in t ensures c in s {
      var i :| 0 <= i < |t| && t[i] == c;
      assert s[|s| - |t| + i] == c;
    }
  }

  /** Each maximal run of white space becomes exactly one `sub`: text
      without white space, then a run, then text that does not start with
      white space, gives the text, one `sub`, and the rest replaced in turn. */
  lemma {:induction false} ReplaceSpaceRunsRun(a: string, w: string, b: string, sub: char)
    requires NoSpace(a) && w != [] && IsBlank(w) && (b == [] || !IsSpace(b[0]))
    ensures ReplaceSpaceRuns(a + w + b, sub) == a + [sub] + ReplaceSpaceRuns(b, sub)
    decreases |a|
  {
    if a == [] {
      assert a + w + b == w + b;
      ReplaceRunFirst(w, b, sub);
    } else {
      ReplaceSpaceRunsRun(a[1..], w, b, sub);
      ReplaceRunStep(a[0], a[1..], w, b, sub);
      assert [a[0]] + a[1..] == a;
    }
  }

  /** One more non-space character in front is copied as it is. */
  lemma ReplaceRunStep(c: char, a: string, w: string, b: string, sub: char)
    requires !IsSpace(c)
    requires ReplaceSpaceRuns(a + w + b, sub) == a + [sub] + ReplaceSpaceRuns(b, sub)
    ensures ReplaceSpaceRuns([c] + a + w + b, sub) == [c] + a + [sub] + ReplaceSpaceRuns(b, sub)
  {
    var rest := ReplaceSpaceRuns(b, sub);
    assert [c] + a + w + b == [c] + (a + w + b);
    ConsReplace(c, a + w + b, sub);
    assert [c] + a + [sub] + rest == [c] + (a + [sub] + rest);
  }

  /** A leading run of white space becomes one `sub`. */
  lemma ReplaceRunFirst(w: string, b: string, sub: char)
    requires w != [] && IsBlank(w) && (b == [] || !IsSpace(b[0]))
    ensures ReplaceSpaceRuns(w + b, sub) == [sub] + ReplaceSpaceRuns(b, sub)
  {
    var s := w + b;
    assert s[0] == w[0] && IsSpace(w[0]);
    assert s[1..] == w[1..] + b;
    ReplaceAtSpace(s, sub);
    TrimStartBlank(w[1..], b);
  }

  lemma ConsReplace(c: char, t: string, sub: char)
    requires !IsSpace(c)
    ensures ReplaceSpaceRuns([c] + t, sub) == [c] + ReplaceSpaceRuns(t, sub)
  {
    assert ([c] + t)[1..] == t;
  }

  lemma ReplaceAtSpace(s: string, sub: char)
    requires s != [] && IsSpace(s[0])
    ensures ReplaceSpaceRuns(s, sub) == [sub] + ReplaceSpaceRuns(TrimStart(s[1..]), sub)
  {
  }

  /** `TrimStart` drops a blank prefix up to the first non-space. */
  lemma {:induction false} TrimStartBlank(w: string, b: string)
    requires IsBlank(w) && (b == [] || !IsSpace(b[0]))
    ensures TrimStart(w + b) == b
    decreases |w|
  {
    if w == [] {
      assert w + b == b;
    } else {
      assert (w + b)[1..] == w[1..] + b;
      TrimStartBlank(w[1..], b);
    }
  }

  /** A string without white space is left alone. */
  lemma {:induction false} ReplaceSpaceRunsNoSpace(s: string, sub: char)
    requires NoSpace(s)
    ensures ReplaceSpaceRuns(s, sub) == s
  {
    if s != [] {
      ReplaceSpaceRunsNoSpace(s[1..], sub);
      assert s == [s[0]] + s[1..];
    }
  }

  /** Upper-casing is idempotent. */
  lemma ToUpperIdempotent(s: string)
    ensures ToUpper(ToUpper(s)) == ToUpper(s)
  {
  }
}
