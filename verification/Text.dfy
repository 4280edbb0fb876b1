/** The Go string operations that the modelled code is written in, with the laws
    the other modules use. Characters are Unicode code points. */
module Text {

  /** Go's unicode.IsSpace: the code points with the White_Space property. */
  predicate IsSpace(c: char) {
    || '\t' <= c <= '\r' || c == ' ' || c == '\U{0085}' || c == '\U{00A0}' || c == '\U{1680}'
    || '\U{2000}' <= c <= '\U{200A}' || c == '\U{2028}' || c == '\U{2029}' || c == '\U{202F}'
    || c == '\U{205F}' || c == '\U{3000}'
  }

  predicate IsSlash(c: char) { c == '/' }

  /** How many leading characters are in the cut set. */
  function Lead(s: string, cut: char -> bool): (n: nat)
    ensures n <= |s| && (n < |s| ==> !cut(s[n]))
  {
    if s != "" && cut(s[0]) then 1 + Lead(s[1..], cut) else 0
  }

  /** Where the trailing characters of the cut set begin. */
  function Tail(s: string, cut: char -> bool): (n: nat)
    ensures n <= |s| && (n > 0 ==> !cut(s[n - 1]))
  {
    if s != "" && cut(s[|s| - 1]) then Tail(s[..|s| - 1], cut) else |s|
  }

  /** strings.TrimFunc; strings.TrimSpace is Trim(_, IsSpace). */
  function Trim(s: string, cut: char -> bool): (r: string)
    ensures |r| <= |s| && (|r| == |s| ==> r == s)
    ensures Trimmed(r, cut)
    ensures Trimmed(s, cut) ==> r == s
  {
    var t := s[Lead(s, cut)..];
    t[..Tail(t, cut)]
  }

  function TrimSpace(s: string): (r: string)
    ensures |r| <= |s| && (|r| == |s| ==> r == s)
    ensures Trimmed(r, IsSpace)
    ensures Trimmed(s, IsSpace) ==> r == s
  {
    Trim(s, IsSpace)
  }

  predicate Trimmed(s: string, cut: char -> bool) {
    s == "" || (!cut(s[0]) && !cut(s[|s| - 1]))
  }

  /** Trimming drops a prefix and a suffix that are in the cut set. */
  lemma TrimParts(s: string, cut: char -> bool) returns (before: string, after: string)
    ensures s == before + Trim(s, cut) + after
    ensures forall c | c in before + after :: cut(c)
  {
    var t := s[Lead(s, cut)..];
    before, after := s[..Lead(s, cut)], t[Tail(t, cut)..];
    assert t == t[..Tail(t, cut)] + after;
    LeadIsCut(s, cut);
    TailIsCut(t, cut);
  }

  lemma {:induction false} LeadIsCut(s: string, cut: char -> bool)
    ensures forall c | c in s[..Lead(s, cut)] :: cut(c)
  {
    if s != "" && cut(s[0]) {
      LeadIsCut(s[1..], cut);
      assert s[..Lead(s, cut)] == [s[0]] + s[1..][..Lead(s[1..], cut)];
    }
  }

  lemma {:induction false} TailIsCut(s: string, cut: char -> bool)
    ensures forall c | c in s[Tail(s, cut)..] :: cut(c)
  {
    if s != "" && cut(s[|s| - 1]) {
      TailIsCut(s[..|s| - 1], cut);
      assert s[Tail(s, cut)..] == s[..|s| - 1][Tail(s, cut)..] + [s[|s| - 1]];
    }
  }

  // ----- separators -----

  predicate SlashFree(s: string) { '/' !in s }

  /** strings.Split(s, "/"). */
  function Split(s: string): (parts: seq<string>)
    ensures |parts| >= 1
  {
    if s == "" then [""]
    else if s[0] == '/' then [""] + Split(s[1..])
    else
      var rest := Split(s[1..]);
      [[s[0]] + rest[0]] + rest[1..]
  }

  function Join(parts: seq<string>, sep: string): string {
    if parts == [] then ""
    else if |parts| == 1 then parts[0]
    else parts[0] + sep + Join(parts[1..], sep)
  }

  lemma {:induction false} SplitParts(s: string)
    ensures forall p | p in Split(s) :: SlashFree(p)
    ensures SlashFree(s) ==> Split(s) == [s]
  {
    if s != "" {
      SplitParts(s[1..]);
      var rest := Split(s[1..]);
      assert rest[0] in rest;
      assert SlashFree(s) ==> SlashFree(s[1..]) && [s[0]] + s[1..] == s;
    }
  }

  lemma {:induction false} JoinSplit(s: string)
    ensures Join(Split(s), "/") == s
  {
    if s == "" {
    } else {
      JoinSplit(s[1..]);
      var rest := Split(s[1..]);
      if s[0] == '/' {
        assert ([""] + rest)[1..] == rest;
      } else if |rest| > 1 {
        assert Split(s)[1..] == rest[1..];
      }
    }
  }

  lemma {:induction false} SplitConcat(a: string, b: string)
    ensures Split(a + "/" + b) == Split(a) + Split(b)
  {
    var whole := a + "/" + b;
    if a == "" {
      assert whole[1..] == b;
    } else {
      assert whole[1..] == a[1..] + "/" + b;
      SplitConcat(a[1..], b);
    }
  }

  lemma {:induction false} SplitJoin(parts: seq<string>)
    requires parts != [] && forall p | p in parts :: SlashFree(p)
    ensures Split(Join(parts, "/")) == parts
  {
    if |parts| == 1 {
      SplitParts(parts[0]);
    } else {
      SplitJoin(parts[1..]);
      SplitParts(parts[0]);
      SplitConcat(parts[0], Join(parts[1..], "/"));
    }
  }

  lemma {:induction false} JoinConcat(a: seq<string>, b: seq<string>, sep: string)
    requires a != [] && b != []
    ensures Join(a + b, sep) == Join(a, sep) + sep + Join(b, sep)
  {
    if |a| == 1 {
      assert (a + b)[1..] == b;
    } else {
      assert (a + b)[1..] == a[1..] + b;
      JoinConcat(a[1..], b, sep);
      assert Join(a + b, sep) == a[0] + sep + (Join(a[1..], sep) + sep + Join(b, sep));
    }
  }

  /** "equal, or extends it by a separator" is exactly prefixing on segments. */
  lemma {:induction false} SegmentPrefix(s: string, t: string)
    ensures (s == t || t + "/" <= s) <==> Split(t) <= Split(s)
  {
    if t + "/" <= s {
      assert s == t + "/" + s[|t| + 1..];
      SplitConcat(t, s[|t| + 1..]);
    }
    if Split(t) <= Split(s) {
      JoinSplit(s);
      JoinSplit(t);
      var tail := Split(s)[|Split(t)|..];
      assert Split(s) == Split(t) + tail;
      if tail == [] {
        assert Split(s) == Split(t);
      } else {
        JoinConcat(Split(t), tail, "/");
      }
    }
  }
}
