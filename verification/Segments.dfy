/** What normalising a label value does to its path segments (server/types/label.go). */
module Segments {
  import opened Basics
  import opened Text
  import opened Labels

  predicate IsPart(p: string) { p != "" }

  /** The segments that are not empty. */
  function Parts(segments: seq<string>): seq<string> { Filter(IsPart, segments) }

  lemma PartsCons(p: string, segments: seq<string>)
    ensures Parts([p] + segments) == (if p == "" then [] else [p]) + Parts(segments)
  {
    FilterConcat(IsPart, [p], segments);
    assert [p][..0] == [];
  }

  lemma PartsSnoc(segments: seq<string>, p: string)
    ensures Parts(segments + [p]) == Parts(segments) + (if p == "" then [] else [p])
  {
    FilterConcat(IsPart, segments, [p]);
    assert [p][..0] == [];
  }

  lemma {:induction false} AllParts(segments: seq<string>)
    requires forall p | p in segments :: p != ""
    ensures Parts(segments) == segments
  {
    if segments != [] {
      var init, last := segments[..|segments| - 1], segments[|segments| - 1];
      assert last in segments && forall p | p in init :: p in segments;
      AllParts(init);
      assert segments == init + [last];
    }
  }

  // ----- collapsing -----

  lemma SplitFirst(c: char, s: string)
    ensures var rest := Split(s); Split([c] + s) == if c == '/' then [""] + rest else [[c] + rest[0]] + rest[1..]
  {
    assert ([c] + s)[1..] == s;
  }

  /** Collapsing keeps the first segment, all parts, and both end characters. */
  lemma {:induction false} CollapseKeepsParts(s: string)
    ensures Split(Collapse(s))[0] == Split(s)[0] && Parts(Split(Collapse(s))) == Parts(Split(s))
    ensures s != "" ==> Collapse(s)[0] == s[0] && Collapse(s)[|Collapse(s)| - 1] == s[|s| - 1]
  {
    hide Parts, Split;
    if |s| >= 2 {
      var t := s[1..];
      CollapseKeepsParts(t);
      assert s == [s[0]] + t;
      SplitFirst(s[0], t);
      if s[0] == '/' && s[1] == '/' {
        PartsCons("", Split(t));
        assert Split(t)[0] == "" by { SlashFirst(t); }
      } else {
        SplitFirst(s[0], Collapse(t));
        SameTail(s[0], Split(t), Split(Collapse(t)));
      }
    }
  }

  lemma SlashFirst(s: string)
    requires s != "" && s[0] == '/'
    ensures Split(s)[0] == ""
  {
  }

  lemma SameTail(c: char, a: seq<string>, b: seq<string>)
    requires a != [] && b != [] && a[0] == b[0] && Parts(a) == Parts(b)
    ensures Parts([""] + a) == Parts([""] + b)
    ensures Parts([[c] + a[0]] + a[1..]) == Parts([[c] + b[0]] + b[1..])
  {
    hide Parts;
    PartsCons("", a);
    PartsCons("", b);
    PartsCons(a[0], a[1..]);
    PartsCons(b[0], b[1..]);
    PartsCons([c] + a[0], a[1..]);
    PartsCons([c] + b[0], b[1..]);
    assert a == [a[0]] + a[1..] && b == [b[0]] + b[1..];
    var pre := if a[0] == "" then [] else [a[0]];
    assert (pre + Parts(a[1..]))[|pre|..] == Parts(a[1..]) && (pre + Parts(b[1..]))[|pre|..] == Parts(b[1..]);
  }

  /** A value without doubled slashes, trimmed of slashes, is its parts joined. */
  lemma TrimJoinsParts(s: string)
    requires !HasDouble(s)
    ensures Trim(s, IsSlash) == Join(Parts(Split(s)), "/")
  {
    hide Split, HasDouble, Parts, Trim, Join;
    var u := Trim(s, IsSlash);
    var before, after := TrimParts(s, IsSlash);
    TrimKeepsNoDouble(s, IsSlash);
    DoubleConcat(before + u, after);
    DoubleConcat(before, u);
    ShortSlashes(before);
    ShortSlashes(after);
    PartsOf(u);
    if u == "" {
      assert s == before + after;
      OnlySlashes(before, after, s);
    } else {
      AroundParts(before, u, after);
    }
  }

  lemma ShortSlashes(s: string)
    requires !HasDouble(s) && forall c | c in s :: IsSlash(c)
    ensures s == "" || s == "/"
  {
    assert s != "" ==> s[0] in s;
  }

  lemma PartsOf(u: string)
    requires !HasDouble(u) && Trimmed(u, IsSlash)
    ensures Join(Parts(Split(u)), "/") == u && (u != "" ==> Parts(Split(u)) == Split(u))
  {
    hide Parts;
    JoinSplit(u);
    if u == "" {
      PartsCons("", []);
      assert [""] + [] == [""];
      assert Parts([]) == [] by { AllParts([]); }
    } else {
      forall p | p in Split(u) ensures p != "" {
        var i :| 0 <= i < |Split(u)| && Split(u)[i] == p;
        if p == "" { EmptySegment(u, i); }
      }
      AllParts(Split(u));
    }
  }

  lemma OnlySlashes(before: string, after: string, s: string)
    requires (before == "" || before == "/") && (after == "" || after == "/") && s == before + after && !HasDouble(s)
    ensures Join(Parts(Split(s)), "/") == ""
  {
    assert s == "" || s == "/";
    if s == "/" { assert s[1..] == ""; }
    PartsCons("", [""]);
    PartsCons("", []);
    assert [""] + [""] == ["", ""] && [""] + [] == [""];
  }

  lemma AroundParts(before: string, u: string, after: string)
    requires (before == "" || before == "/") && (after == "" || after == "/") && u != ""
    ensures Parts(Split(before + u + after)) == Parts(Split(u))
  {
    hide Split, Parts;
    SplitParts("");
    assert "/" + u == "" + "/" + u;
    SplitConcat("", u);
    PartsCons("", Split(u));
    assert before == "" ==> before + u == u;
    assert Parts(Split(before + u)) == Parts(Split(u));
    if after == "/" {
      assert before + u + after == (before + u) + "/" + "";
      SplitConcat(before + u, "");
      PartsSnoc(Split(before + u), "");
    } else {
      assert before + u + after == before + u;
    }
  }

  // ----- normalising -----

  /** A leading slash, the namespace's name and a slash behind it. */
  predicate Qualified(name: string, t: string, parts: seq<string>) {
    t != "" && t[0] == '/' && parts != [] && parts[0] == name && (|parts| > 1 || t[|t| - 1] == '/')
  }

  /** The parts that stay. */
  function Bare(lt: LabelType, t: string): seq<string> {
    var parts := Parts(Split(t));
    if !lt.Unknown? && Qualified(lt.Name(), t, parts) then parts[1..] else parts
  }

  /** Main result: the normalised value is the parts of the value, without its namespace, joined. */
  lemma NormalizeByParts(lt: LabelType, value: string)
    ensures lt.Normalize(value) == Join(Bare(lt, TrimSpace(value)), "/")
  {
    hide Parts, Split, HasDouble, Collapse, Trim, TrimSpace, Join, LabelType.Name, LabelType.Prefix;
    var t := TrimSpace(value);
    var c := Collapse(t);
    CollapseKeepsParts(t);
    CollapseShape(t);
    BareParts(lt, c);
    assert Bare(lt, c) == Bare(lt, t);
  }

  lemma BareParts(lt: LabelType, c: string)
    requires !HasDouble(c)
    ensures Trim(StripPrefix(lt, c), IsSlash) == Join(Bare(lt, c), "/")
  {
    hide Parts, Split, HasDouble, Trim, Join, LabelType.Name, LabelType.Prefix;
    var bare := StripPrefix(lt, c);
    assert c == c[..|c| - |bare|] + bare;
    DoubleConcat(c[..|c| - |bare|], bare);
    TrimJoinsParts(bare);
    if !lt.Unknown? { Stripped(lt, c); }
  }

  lemma NoParts()
    ensures Parts(Split("")) == []
  {
    PartsCons("", []);
    assert [""] + [] == [""];
  }

  lemma CollapseShape(t: string)
    ensures !HasDouble(Collapse(t)) && (t == "" <==> Collapse(t) == "")
  {
  }

  /** When the namespace prefix is there, and what is left of it. */
  lemma Stripped(lt: LabelType, c: string)
    requires !lt.Unknown? && !HasDouble(c)
    ensures var parts := Parts(Split(c));
      && (lt.Prefix() <= c <==> Qualified(lt.Name(), c, parts))
      && (lt.Prefix() <= c ==> Parts(Split(c[|lt.Prefix()|..])) == parts[1..])
  {
    hide Parts, Split, HasDouble, LabelType.Name;
    PrefixShape(lt);
    assert lt.Prefix() == "/" + lt.Name() + "/";
    if lt.Prefix() <= c { PrefixIsQualified(lt.Name(), c); }
    if Qualified(lt.Name(), c, Parts(Split(c))) { QualifiedHasPrefix(lt.Name(), c); }
  }

  lemma PrefixIsQualified(name: string, c: string)
    requires GoodSegment(name) && !HasDouble(c) && "/" + name + "/" <= c
    ensures Qualified(name, c, Parts(Split(c)))
    ensures Parts(Split(c[|name| + 2..])) == Parts(Split(c))[1..]
  {
    hide Parts, Split, HasDouble;
    var p, rest := "/" + name + "/", c[|name| + 2..];
    assert c == p + rest;
    SplitNamed(name, rest);
    PartsCons(name, Split(rest));
    PartsCons("", [name] + Split(rest));
    assert ["", name] + Split(rest) == [""] + ([name] + Split(rest));
    assert Parts(Split(c)) == [name] + Parts(Split(rest));
    DoubleConcat(p, rest);
    if Parts(Split(rest)) == [] {
      TrimJoinsParts(rest);
      var before, after := TrimParts(rest, IsSlash);
      assert rest == before + after;
    }
  }

  lemma QualifiedHasPrefix(name: string, c: string)
    requires GoodSegment(name) && !HasDouble(c) && Qualified(name, c, Parts(Split(c)))
    ensures "/" + name + "/" <= c
  {
    hide Parts, Split;
    var w := c[1..];
    assert c == "" + "/" + w;
    SplitParts("");
    SplitConcat("", w);
    PartsCons("", Split(w));
    JoinSplit(w);
    var ws := Split(w);
    assert ws[0] == name by { FirstPart(w); NoParts(); }
    if |ws| == 1 {
      assert w == name && ws == [name];
      PartsCons(name, []);
      assert [name] + [] == ws && Parts([]) == [] by { AllParts([]); }
      assert false;
    } else {
      assert w == name + "/" + Join(ws[1..], "/");
    }
  }

  lemma FirstPart(w: string)
    requires w == "" || w[0] != '/'
    ensures w != "" ==> Parts(Split(w)) != [] && Parts(Split(w))[0] == Split(w)[0]
  {
    hide Parts;
    if w != "" {
      PartsCons(Split(w)[0], Split(w)[1..]);
      assert Split(w) == [Split(w)[0]] + Split(w)[1..];
    }
  }
}
