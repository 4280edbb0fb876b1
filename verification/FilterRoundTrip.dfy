/** Printing a filter and parsing it back: what the quoting rules of
    server/controller/ai_finder_filter.go let a caller express. */
module FilterRoundTrip {
  import opened Basics
  import opened Text
  import opened FilterParser

  /** The fields applyClause knows. */
  predicate Known(field: string) {
    field in {"displayName", "type", "publisherId", "createdAfter", "updatedAfter",
              "verified", "trusted", "safe", "tags"}
  }

  // ----- the printer -----

  function PrintValue(v: string): string { "\"" + v + "\"" }

  function PrintValues(vs: seq<string>): string {
    if vs == [] then ""
    else if |vs| == 1 then PrintValue(vs[0])
    else PrintValue(vs[0]) + "," + PrintValues(vs[1..])
  }

  function PrintClause(c: Clause): string { c.field + "=" + PrintValues(c.values) }

  function Printed(cs: seq<Clause>): (r: seq<string>)
    ensures |r| == |cs| && forall i | 0 <= i < |r| :: r[i] == PrintClause(cs[i])
  {
    seq(|cs|, i requires 0 <= i < |cs| => PrintClause(cs[i]))
  }

  function PrintFilter(cs: seq<Clause>): string { Join(Printed(cs), " AND ") }

  predicate Plain(s: string) { forall i | 0 <= i < |s| :: s[i] != '"' && s[i] != '=' && !IsSpace(s[i]) }

  predicate Printable(c: Clause) {
    c.field != "" && Plain(c.field) && c.values != [] && forall v | v in c.values :: '"' !in v
  }

  // ----- the clause scanner runs over printed text -----

  lemma {:induction false} PlainRun(t: string, rest: string, cur: string, acc: seq<string>)
    requires forall i | 0 <= i < |t| :: t[i] != '"' && !IsSpace(t[i])
    ensures SplitFrom(t + rest, false, cur, acc) == SplitFrom(rest, false, cur + t, acc)
  {
    hide Flush, AndAt, IsSpace, Lead;
    if t == "" {
      assert t + rest == rest && cur + t == cur;
    } else {
      assert (t + rest)[1..] == t[1..] + rest && cur + t == cur + [t[0]] + t[1..];
      PlainRun(t[1..], rest, cur + [t[0]], acc);
    }
  }

  lemma {:induction false} QuotedRun(v: string, rest: string, cur: string, acc: seq<string>)
    requires '"' !in v
    ensures SplitFrom(v + "\"" + rest, true, cur, acc) == SplitFrom(rest, false, cur + v + "\"", acc)
  {
    hide Flush, AndAt, IsSpace, Lead;
    var whole := v + "\"" + rest;
    if v == "" {
      assert whole[1..] == rest && cur + v + "\"" == cur + [whole[0]];
    } else {
      assert whole[1..] == v[1..] + "\"" + rest;
      assert cur + v + "\"" == cur + [v[0]] + v[1..] + "\"";
      QuotedRun(v[1..], rest, cur + [v[0]], acc);
    }
  }

  lemma ValueRun(v: string, rest: string, cur: string, acc: seq<string>)
    requires '"' !in v
    ensures SplitFrom(PrintValue(v) + rest, false, cur, acc)
         == SplitFrom(rest, false, cur + PrintValue(v), acc)
  {
    hide Flush, AndAt, IsSpace, Lead;
    var whole := PrintValue(v) + rest;
    assert whole[0] == '"' && whole[1..] == v + "\"" + rest;
    QuotedRun(v, rest, cur + "\"", acc);
    assert cur + PrintValue(v) == cur + "\"" + v + "\"";
  }

  lemma {:induction false} ValuesRun(vs: seq<string>, rest: string, cur: string, acc: seq<string>)
    requires forall v | v in vs :: '"' !in v
    ensures SplitFrom(PrintValues(vs) + rest, false, cur, acc)
         == SplitFrom(rest, false, cur + PrintValues(vs), acc)
  {
    hide SplitFrom, IsSpace, PrintValue;
    if vs == [] {
      assert PrintValues(vs) + rest == rest && cur + PrintValues(vs) == cur;
    } else if |vs| == 1 {
      ValueRun(vs[0], rest, cur, acc);
    } else {
      var first, more := PrintValue(vs[0]), PrintValues(vs[1..]);
      assert PrintValues(vs) + rest == first + ("," + (more + rest));
      ValueRun(vs[0], "," + (more + rest), cur, acc);
      Comma();
      PlainRun(",", more + rest, cur + first, acc);
      ValuesRun(vs[1..], rest, cur + first + ",", acc);
      assert cur + PrintValues(vs) == cur + first + "," + more;
    }
  }

  lemma Comma()
    ensures !IsSpace(',') && !IsSpace('"') && !IsSpace('=')
  {
  }

  lemma ClauseRun(c: Clause, rest: string, cur: string, acc: seq<string>)
    requires Printable(c)
    ensures SplitFrom(PrintClause(c) + rest, false, cur, acc)
         == SplitFrom(rest, false, cur + PrintClause(c), acc)
  {
    hide SplitFrom, IsSpace, PrintValues;
    Comma();
    var head, tail := c.field + "=", PrintValues(c.values);
    assert PrintClause(c) + rest == head + (tail + rest);
    PlainRun(head, tail + rest, cur, acc);
    ValuesRun(c.values, rest, cur + head, acc);
    assert cur + PrintClause(c) == cur + head + tail;
  }

  /** Printed text begins with its first field and an equals sign. */
  predicate Starts(t: string) {
    exists n: nat | 0 < n < |t| :: t[n] == '=' && Plain(t[..n])
  }

  lemma ClauseStarts(c: Clause, rest: string)
    requires Printable(c)
    ensures Starts(PrintClause(c) + rest)
  {
    hide IsSpace, PrintValues;
    var t, n := PrintClause(c) + rest, |c.field|;
    assert t[n] == '=' && t[..n] == c.field;
  }

  lemma AndRun(tail: string, cur: string, acc: seq<string>)
    requires Starts(tail)
    ensures SplitFrom(" AND " + tail, false, cur, acc) == SplitFrom(tail, false, " ", Flush(cur, acc))
  {
    hide Flush;
    var n: nat :| 0 < n < |tail| && tail[n] == '=' && Plain(tail[..n]);
    var whole, next := " AND " + tail, " " + tail;
    assert tail[..n][0] == tail[0];
    assert Lead(whole, IsSpace) == 1 by { assert whole[1..][0] == 'A'; }
    assert Lead(next, IsSpace) == 1 by { assert next[1..] == tail; }
    assert whole[1..4] == "AND" && whole[4] == ' ' && whole[4..] == next;
    assert !AndAt(next, 1) by { NotAnd(tail, n); }
    assert next[1..] == tail;
    Unfold(whole, cur, acc, next, tail);
  }

  lemma NotAnd(tail: string, n: nat)
    requires 0 < n < |tail| && tail[n] == '=' && Plain(tail[..n])
    ensures !AndAt(" " + tail, 1)
  {
    var next := " " + tail;
    assert next[1..] == tail;
    assert n >= 4 ==> tail[3] == tail[..n][3];
    assert |tail| >= 3 ==> next[1..4][0] == tail[0] && next[1..4][1] == tail[1] && next[1..4][2] == tail[2];
  }

  lemma Unfold(whole: string, cur: string, acc: seq<string>, next: string, tail: string)
    requires |whole| > 4 && whole[0] == ' ' && Lead(whole, IsSpace) == 1 && AndAt(whole, 1) && whole[4..] == next
    requires next != "" && next[0] == ' ' && Lead(next, IsSpace) == 1 && !AndAt(next, 1) && next[1..] == tail
    ensures SplitFrom(whole, false, cur, acc) == SplitFrom(tail, false, " ", Flush(cur, acc))
  {
    hide Flush, Lead, AndAt;
    assert "" + [next[0]] == " ";
    assert SplitFrom(whole, false, cur, acc) == SplitFrom(next, false, "", Flush(cur, acc));
  }

  /** Trimming the text collected for a printed clause gives the clause. */
  lemma FlushClause(c: Clause, lead: string, acc: seq<string>)
    requires Printable(c) && (lead == "" || lead == " ")
    ensures Flush(lead + PrintClause(c), acc) == acc + [PrintClause(c)]
  {
    var t := PrintClause(c);
    ClauseTrimmed(c);
    if lead == "" {
      assert lead + t == t;
    } else {
      TrimLeadingSpace(t);
    }
  }

  lemma {:induction false} ValuesEnds(vs: seq<string>)
    requires vs != []
    ensures var t := PrintValues(vs); |t| >= 2 && t[0] == '"' && t[|t| - 1] == '"'
  {
    if |vs| > 1 {
      ValuesEnds(vs[1..]);
    }
  }

  lemma ClauseTrimmed(c: Clause)
    requires Printable(c)
    ensures Trimmed(PrintClause(c), IsSpace) && PrintClause(c) != ""
  {
    hide PrintValues;
    ValuesEnds(c.values);
    var t := PrintClause(c);
    assert t[0] == c.field[0];
  }

  lemma TrimLeadingSpace(t: string)
    requires Trimmed(t, IsSpace) && t != ""
    ensures TrimSpace(" " + t) == t
  {
    var s := " " + t;
    assert s[1..] == t;
    assert Lead(s, IsSpace) == 1;
    assert Tail(t, IsSpace) == |t|;
  }

  /** The clause scanner cuts a printed filter exactly between its clauses. */
  lemma {:induction false} SplitPrinted(cs: seq<Clause>, lead: string, acc: seq<string>)
    requires cs != [] && (forall c | c in cs :: Printable(c)) && (lead == "" || lead == " ")
    ensures SplitFrom(PrintFilter(cs), false, lead, acc) == Some(acc + Printed(cs))
  {
    hide PrintClause, Printable, IsSpace, SplitFrom, PrintFilter;
    var t := PrintClause(cs[0]);
    PrintCons(cs);
    if |cs| == 1 {
      SplitLast(cs[0], lead, acc);
      assert Printed(cs) == [t];
    } else {
      FilterStarts(cs[1..]);
      SplitMore(cs[0], PrintFilter(cs[1..]), lead, acc);
      SplitPrinted(cs[1..], " ", acc + [t]);
      assert acc + [t] + Printed(cs[1..]) == acc + Printed(cs);
    }
  }

  lemma SplitMore(c: Clause, rest: string, lead: string, acc: seq<string>)
    requires Printable(c) && Starts(rest) && (lead == "" || lead == " ")
    ensures SplitFrom(PrintClause(c) + (" AND " + rest), false, lead, acc)
         == SplitFrom(rest, false, " ", acc + [PrintClause(c)])
  {
    hide PrintClause, Printable, IsSpace, Starts, SplitFrom, Flush;
    FlushClause(c, lead, acc);
    ClauseRun(c, " AND " + rest, lead, acc);
    AndRun(rest, lead + PrintClause(c), acc);
  }

  lemma SplitLast(c: Clause, lead: string, acc: seq<string>)
    requires Printable(c) && (lead == "" || lead == " ")
    ensures SplitFrom(PrintClause(c), false, lead, acc) == Some(acc + [PrintClause(c)])
  {
    hide PrintClause, Printable, IsSpace, SplitFrom, Flush;
    FlushClause(c, lead, acc);
    ClauseRun(c, "", lead, acc);
    assert PrintClause(c) + "" == PrintClause(c);
    LastFlush(lead + PrintClause(c), acc, PrintClause(c));
  }

  lemma PrintCons(cs: seq<Clause>)
    requires cs != []
    ensures PrintFilter(cs) ==
      if |cs| == 1 then PrintClause(cs[0]) else PrintClause(cs[0]) + (" AND " + PrintFilter(cs[1..]))
  {
    hide PrintClause;
    assert Printed(cs)[1..] == Printed(cs[1..]);
    assert PrintFilter(cs) == if |cs| == 1 then PrintClause(cs[0])
                              else PrintClause(cs[0]) + " AND " + PrintFilter(cs[1..]);
  }

  lemma LastFlush(cur: string, acc: seq<string>, t: string)
    requires Flush(cur, acc) == acc + [t]
    ensures SplitFrom("", false, cur, acc) == Some(acc + [t])
  {
    hide Flush;
  }

  lemma FilterStarts(cs: seq<Clause>)
    requires cs != [] && forall c | c in cs :: Printable(c)
    ensures Starts(PrintFilter(cs))
  {
    hide PrintClause, Printable, Starts;
    if |cs| == 1 {
      ClauseStarts(cs[0], "");
      assert PrintClause(cs[0]) + "" == PrintClause(cs[0]);
    } else {
      var rest := " AND " + Join(Printed(cs)[1..], " AND ");
      ClauseStarts(cs[0], rest);
      assert PrintFilter(cs) == PrintClause(cs[0]) + rest;
    }
  }

  // ----- the value scanner -----

  predicate Blank(v: string) { TrimSpace(v) == "" }

  predicate NoBlank(vs: seq<string>) { forall v | v in vs :: !Blank(v) }

  function Trims(vs: seq<string>): (r: seq<string>)
    ensures |r| == |vs| && forall i | 0 <= i < |r| :: r[i] == TrimSpace(vs[i])
  {
    seq(|vs|, i requires 0 <= i < |vs| => TrimSpace(vs[i]))
  }

  lemma {:induction false} ValueText(v: string, rest: string, cur: string, out: seq<string>)
    requires '"' !in v
    ensures ValuesFrom(v + "\"" + rest, true, cur, out) == ValuesFrom(rest, false, cur + v, out)
  {
    hide Trim, TrimSpace;
    var whole := v + "\"" + rest;
    if v == "" {
      assert whole[1..] == rest && cur + v == cur;
    } else {
      assert whole[1..] == v[1..] + "\"" + rest;
      assert cur + v == cur + [v[0]] + v[1..];
      ValueText(v[1..], rest, cur + [v[0]], out);
    }
  }

  lemma OpenValue(v: string, rest: string, out: seq<string>)
    requires '"' !in v
    ensures ValuesFrom(PrintValue(v) + rest, false, "", out) == ValuesFrom(rest, false, v, out)
  {
    hide Trim;
    var whole := PrintValue(v) + rest;
    assert whole[0] == '"' && whole[1..] == v + "\"" + rest;
    ValueText(v, rest, "", out);
    assert "" + v == v;
  }

  /** A printed value list reads back as its trimmed values, unless one is blank. */
  lemma {:induction false} ReadValues(vs: seq<string>, out: seq<string>)
    requires vs != [] && forall v | v in vs :: '"' !in v
    ensures ValuesFrom(PrintValues(vs), false, "", out)
         == if NoBlank(vs) then Some(out + Trims(vs)) else None
  {
    hide TrimSpace, PrintValues, NoBlank, Blank, ValuesFrom, Trims;
    var v := vs[0];
    ReadFirst(vs, out);
    ListCons(vs, out);
    if |vs| == 1 {
      EndRead(v, out);
      assert out + [TrimSpace(v)] + [] == out + [TrimSpace(v)];
    } else {
      CommaRead(v, PrintValues(vs[1..]), out);
      ReadValues(vs[1..], out + [TrimSpace(v)]);
    }
  }

  lemma ReadFirst(vs: seq<string>, out: seq<string>)
    requires vs != [] && '"' !in vs[0]
    ensures var rest := if |vs| == 1 then "" else "," + PrintValues(vs[1..]);
      ValuesFrom(PrintValues(vs), false, "", out) == ValuesFrom(rest, false, vs[0], out)
  {
    hide ValuesFrom, PrintValue;
    var rest := if |vs| == 1 then "" else "," + PrintValues(vs[1..]);
    OpenValue(vs[0], rest, out);
    assert PrintValue(vs[0]) + rest == PrintValues(vs);
  }

  lemma ListCons(vs: seq<string>, out: seq<string>)
    requires vs != []
    ensures out + Trims(vs) == out + [TrimSpace(vs[0])] + Trims(vs[1..])
    ensures NoBlank(vs) <==> !Blank(vs[0]) && NoBlank(vs[1..])
    ensures |vs| == 1 ==> Trims(vs[1..]) == [] && NoBlank(vs[1..])
  {
    hide TrimSpace, Blank;
    assert Trims(vs) == [TrimSpace(vs[0])] + Trims(vs[1..]);
    assert vs == [vs[0]] + vs[1..];
  }

  lemma EndRead(v: string, out: seq<string>)
    ensures ValuesFrom("", false, v, out) == if Blank(v) then None else Some(out + [TrimSpace(v)])
  {
    hide Trim, TrimSpace;
  }

  lemma CommaRead(v: string, rest: string, out: seq<string>)
    ensures ValuesFrom("," + rest, false, v, out)
         == if Blank(v) then None else ValuesFrom(rest, false, "", out + [TrimSpace(v)])
  {
    hide Trim, TrimSpace;
    assert ("," + rest)[1..] == rest;
  }

  // ----- values without quotes -----

  predicate Bare(v: string) { '"' !in v && ',' !in v }

  predicate NoEquals(vs: seq<string>) { forall v | v in vs :: '=' !in v }

  lemma {:induction false} BareText(v: string, rest: string, cur: string, out: seq<string>)
    requires Bare(v)
    ensures ValuesFrom(v + rest, false, cur, out)
         == if '=' in v then None else ValuesFrom(rest, false, cur + v, out)
  {
    hide Trim, TrimSpace;
    if v == "" {
      assert v + rest == rest && cur + v == cur;
    } else {
      assert (v + rest)[1..] == v[1..] + rest && cur + v == cur + [v[0]] + v[1..];
      BareText(v[1..], rest, cur + [v[0]], out);
    }
  }

  lemma NoEqualsCons(vs: seq<string>)
    requires vs != []
    ensures NoEquals(vs) <==> '=' !in vs[0] && NoEquals(vs[1..])
    ensures |vs| == 1 ==> NoEquals(vs[1..])
  {
    assert vs == [vs[0]] + vs[1..];
  }

  /** Without quotes a list reads the same, unless a value is blank or holds an equals sign. */
  lemma {:induction false} ReadBareValues(vs: seq<string>, out: seq<string>)
    requires vs != [] && forall v | v in vs :: Bare(v)
    ensures ValuesFrom(Join(vs, ","), false, "", out)
         == if NoBlank(vs) && NoEquals(vs) then Some(out + Trims(vs)) else None
  {
    hide TrimSpace, NoBlank, Blank, ValuesFrom, Trims, NoEquals, Bare;
    var v := vs[0];
    var rest := if |vs| == 1 then "" else "," + Join(vs[1..], ",");
    assert Join(vs, ",") == v + rest;
    BareText(v, rest, "", out);
    assert "" + v == v;
    ListCons(vs, out);
    NoEqualsCons(vs);
    if |vs| == 1 {
      EndRead(v, out);
      assert out + [TrimSpace(v)] + [] == out + [TrimSpace(v)];
    } else {
      CommaRead(v, Join(vs[1..], ","), out);
      ReadBareValues(vs[1..], out + [TrimSpace(v)]);
    }
  }

  lemma {:induction false} FindEqual(t: string, rest: string)
    requires Plain(t)
    ensures EqualAt(t + "=" + rest, false) == Some(|t|)
  {
    hide IsSpace;
    if t == "" {
      assert (t + "=" + rest)[0] == '=';
    } else {
      assert (t + "=" + rest)[1..] == t[1..] + "=" + rest;
      FindEqual(t[1..], rest);
    }
  }

  // ----- the whole filter -----

  function TrimValues(c: Clause): Clause { Clause(c.field, Trims(c.values)) }

  function TrimAll(cs: seq<Clause>): (r: seq<Clause>)
    ensures |r| == |cs| && forall i | 0 <= i < |r| :: r[i] == TrimValues(cs[i])
  {
    seq(|cs|, i requires 0 <= i < |cs| => TrimValues(cs[i]))
  }

  predicate Readable(c: Clause, accepts: Clause -> bool) {
    NoBlank(c.values) && accepts(TrimValues(c))
  }

  predicate AllReadable(cs: seq<Clause>, accepts: Clause -> bool) {
    forall c | c in cs :: Readable(c, accepts)
  }

  lemma AllReadableSnoc(cs: seq<Clause>, c: Clause, accepts: Clause -> bool)
    ensures AllReadable(cs + [c], accepts) <==> AllReadable(cs, accepts) && Readable(c, accepts)
  {
    hide Readable;
    assert c in cs + [c];
    assert forall d | d in cs :: d in cs + [c];
  }

  lemma ReadPrinted(c: Clause)
    requires Printable(c)
    ensures ParseClause(PrintClause(c))
         == if NoBlank(c.values) then Some(TrimValues(c)) else None
  {
    hide EqualAt, ValuesFrom, PrintValues, Trim, Trims, NoBlank;
    var t, raw := PrintClause(c), PrintValues(c.values);
    FindEqual(c.field, raw);
    assert t[..|c.field|] == c.field && t[|c.field| + 1..] == raw;
    ValuesEnds(c.values);
    assert Trimmed(c.field, IsSpace) && Trimmed(raw, IsSpace);
    ReadValues(c.values, []);
    assert [] + Trims(c.values) == Trims(c.values);
  }

  lemma {:induction false} ReadAll(cs: seq<Clause>, accepts: Clause -> bool)
    requires forall c | c in cs :: Printable(c)
    ensures ParseClauses(Printed(cs), accepts)
         == if Distinct(Fields(cs)) && AllReadable(cs, accepts) then Some(TrimAll(cs)) else None
  {
    hide PrintClause, ParseClause, Printable, NoBlank, Trims, AllReadable, Distinct;
    if cs != [] {
      var init, last := cs[..|cs| - 1], cs[|cs| - 1];
      assert cs == init + [last];
      assert Printed(cs)[..|cs| - 1] == Printed(init);
      ReadAll(init, accepts);
      ReadPrinted(last);
      assert Fields(TrimAll(init)) == Fields(init) && Fields(cs) == Fields(init) + [last.field];
      assert TrimAll(cs) == TrimAll(init) + [TrimValues(last)];
      DistinctSnoc(Fields(init), last.field);
      AllReadableSnoc(init, last, accepts);
    } else {
      ReadNone(accepts);
    }
  }

  lemma ReadNone(accepts: Clause -> bool)
    ensures AllReadable([], accepts) && Distinct(Fields([]))
  {
  }

  lemma DistinctSnoc<T>(s: seq<T>, x: T)
    ensures Distinct(s + [x]) <==> Distinct(s) && x !in s
  {
    var t := s + [x];
    assert t[|s|] == x && forall i | 0 <= i < |s| :: t[i] == s[i];
    if Distinct(s) && x !in s {
      assert forall i | 0 <= i < |s| :: t[i] in s;
    }
  }

  /** Every list of printable clauses, printed and parsed: accepted exactly when it is
      short enough, names no field twice, and has only non-blank values that applyClause
      takes; and then every value comes back with its outer whitespace trimmed. */
  lemma PrintThenParse(cs: seq<Clause>, accepts: Clause -> bool)
    requires forall c | c in cs :: Printable(c)
    ensures var ok := ByteLen(PrintFilter(cs)) <= FILTER_MAX_LEN && Distinct(Fields(cs))
              && AllReadable(cs, accepts);
      ParseFilter(PrintFilter(cs), accepts) == if ok then Some(TrimAll(cs)) else None
  {
    hide ByteLen, AllReadable, Printable, PrintClause, SplitFrom, ParseClauses, Trim;
    if cs == [] {
      assert PrintFilter(cs) == "" && TrimAll(cs) == [];
      ShortEmpty();
      ReadNone(accepts);
    } else {
      FilterTrimmed(cs);
      SplitPrinted(cs, "", []);
      assert [] + Printed(cs) == Printed(cs);
      ReadAll(cs, accepts);
    }
  }

  lemma ShortEmpty()
    ensures ByteLen("") == 0
  {
  }

  lemma {:induction false} FilterTrimmed(cs: seq<Clause>)
    requires cs != [] && forall c | c in cs :: Printable(c)
    ensures Trimmed(PrintFilter(cs), IsSpace) && PrintFilter(cs) != ""
  {
    hide PrintClause, Printable, IsSpace;
    ClauseTrimmed(cs[0]);
    if |cs| > 1 {
      assert Printed(cs)[1..] == Printed(cs[1..]);
      FilterTrimmed(cs[1..]);
      var t, rest := PrintFilter(cs), PrintFilter(cs[1..]);
      assert t == PrintClause(cs[0]) + " AND " + rest;
      assert t[|t| - 1] == rest[|rest| - 1];
    }
  }

  /** The round trip is exact for exactly the filters whose values are non-empty and trimmed:
      separators, equals signs and the word AND inside a value are all harmless. */
  lemma RoundTrip(cs: seq<Clause>, accepts: Clause -> bool)
    requires (forall c | c in cs :: Printable(c) && accepts(c)) && Distinct(Fields(cs))
    requires ByteLen(PrintFilter(cs)) <= FILTER_MAX_LEN
    ensures ParseFilter(PrintFilter(cs), accepts) == Some(cs)
       <==> forall c | c in cs :: Tidy(c.values)
  {
    hide ByteLen, Printable, PrintFilter, ParseFilter;
    PrintThenParse(cs, accepts);
    forall c | c in cs ensures Tidy(c.values) <==> TrimValues(c) == c && NoBlank(c.values) {
      TidyValues(c);
    }
    if forall c | c in cs :: Tidy(c.values) {
      assert TrimAll(cs) == cs;
    } else if AllReadable(cs, accepts) {
      var c :| c in cs && !Tidy(c.values);
      var i :| 0 <= i < |cs| && cs[i] == c;
      assert TrimAll(cs)[i] != cs[i];
    }
  }

  lemma {:induction false} FourBytesEach(s: string)
    ensures ByteLen(s) <= 4 * |s|
  {
    if s != "" { FourBytesEach(s[1..]); }
  }

  /** type=" a" comes back as type="a". */
  lemma OuterSpaceIsLost(accepts: Clause -> bool)
    requires accepts(Clause("type", ["a"]))
    ensures PrintFilter([Clause("type", [" a"])]) == "type=\" a\""
    ensures ParseFilter("type=\" a\"", accepts) == Some([Clause("type", ["a"])])
  {
    hide ByteLen, ParseFilter, TrimSpace, IsSpace;
    var cs := [Clause("type", [" a"])];
    assert Printed(cs) == [PrintClause(cs[0])];
    var t := PrintFilter(cs);
    assert t == "type=\" a\"";
    FourBytesEach(t);
    assert Plain("type") by { KnownPlain("type"); }
    LetterNotSpace('a');
    TrimLeadingSpace("a");
    assert " " + "a" == " a";
    assert Trims([" a"]) == ["a"] && TrimAll(cs) == [Clause("type", ["a"])];
    PrintThenParse(cs, accepts);
  }

  predicate Tidy(vs: seq<string>) { forall v | v in vs :: v != "" && Trimmed(v, IsSpace) }

  lemma TidyValues(c: Clause)
    ensures Tidy(c.values) <==> TrimValues(c) == c && NoBlank(c.values)
  {
    hide Trim, IsSpace;
    if TrimValues(c) == c {
      forall v | v in c.values ensures TrimSpace(v) == v {
        var i :| 0 <= i < |c.values| && c.values[i] == v;
        assert Trims(c.values)[i] == TrimSpace(v);
      }
    }
    assert Tidy(c.values) ==> Trims(c.values) == c.values;
  }

  // ----- every accepted input -----

  predicate GoodValue(v: string) { v != "" && Trimmed(v, IsSpace) && '"' !in v }

  lemma {:induction false} ValuesShape(rest: string, inQuote: bool, cur: string, out: seq<string>)
    requires '"' !in cur && forall v | v in out :: GoodValue(v)
    ensures var r := ValuesFrom(rest, inQuote, cur, out);
      r.Some? ==> r.value != [] && forall v | v in r.value :: GoodValue(v)
    decreases |rest|
  {
    hide Trim, IsSpace;
    var token := TrimSpace(cur);
    assert '"' !in token by { var before, after := TrimParts(cur, IsSpace); }
    if rest != "" {
      if rest[0] == '"' {
        ValuesShape(rest[1..], !inQuote, if inQuote then cur else "", out);
      } else if rest[0] == ',' && !inQuote {
        if token != "" {
          ValuesShape(rest[1..], false, "", out + [token]);
        }
      } else {
        ValuesShape(rest[1..], inQuote, cur + [rest[0]], out);
      }
    }
  }

  predicate GoodClause(c: Clause) {
    c.field != "" && Trimmed(c.field, IsSpace) && c.values != [] && forall v | v in c.values :: GoodValue(v)
  }

  lemma {:induction false} ClausesShape(texts: seq<string>, accepts: Clause -> bool)
    ensures var r := ParseClauses(texts, accepts);
      r.Some? ==> Distinct(Fields(r.value)) && forall c | c in r.value :: GoodClause(c) && accepts(c)
  {
    hide ValuesFrom, EqualAt, TrimSpace, GoodValue, IsSpace;
    if texts != [] {
      var init, text := texts[..|texts| - 1], texts[|texts| - 1];
      ClausesShape(init, accepts);
      var at := EqualAt(text, false);
      if at.Some? {
        ValuesShape(TrimSpace(text[at.value + 1..]), false, "", []);
      }
      var r := ParseClauses(texts, accepts);
      if r.Some? {
        var before, last := ParseClauses(init, accepts).value, ParseClause(text).value;
        assert Fields(r.value) == Fields(before) + [last.field];
        DistinctSnoc(Fields(before), last.field);
      }
    }
  }

  /** Whatever is accepted is in normal form: distinct fields, and lists of non-empty, trimmed,
      quote-free values. */
  lemma ParsedShape(input: string, accepts: Clause -> bool)
    ensures var r := ParseFilter(input, accepts);
      r.Some? ==> Distinct(Fields(r.value)) && forall c | c in r.value :: GoodClause(c) && accepts(c)
  {
    hide ByteLen, ParseClauses, GoodClause, SplitFrom, TrimSpace;
    var texts := SplitFrom(TrimSpace(input), false, "", []);
    if texts.Some? {
      ClausesShape(texts.value, accepts);
    }
  }

  /** So an accepted filter, printed, means itself again. */
  lemma Reprint(input: string, accepts: Clause -> bool)
    requires forall c :: accepts(c) ==> Known(c.field)
    ensures var r := ParseFilter(input, accepts);
      (r.Some? && ByteLen(PrintFilter(r.value)) <= FILTER_MAX_LEN) ==>
        ParseFilter(PrintFilter(r.value), accepts) == r
  {
    hide ByteLen, PrintFilter, ParseFilter, Known;
    var r := ParseFilter(input, accepts);
    ParsedShape(input, accepts);
    if r.Some? && ByteLen(PrintFilter(r.value)) <= FILTER_MAX_LEN {
      forall c | c in r.value ensures Printable(c) && Tidy(c.values) {
        KnownPlain(c.field);
      }
      RoundTrip(r.value, accepts);
    }
  }

  lemma KnownPlain(field: string)
    requires Known(field)
    ensures Plain(field)
  {
    hide IsSpace;
    KnownLetters(field);
    forall i | 0 <= i < |field| ensures !IsSpace(field[i]) {
      LetterNotSpace(field[i]);
    }
  }

  lemma KnownLetters(field: string)
    requires Known(field)
    ensures forall i | 0 <= i < |field| :: 'A' <= field[i] <= 'z'
  {
  }

  lemma LetterNotSpace(c: char)
    requires 'A' <= c <= 'z'
    ensures !IsSpace(c)
  {
  }
}
