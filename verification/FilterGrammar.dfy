/** The language the filter parser accepts (server/controller/ai_finder_filter.go), as a grammar:
    texts are rendered from their parts, and the parser accepts exactly what can be rendered. */
module FilterGrammar {
  import opened Basics
  import opened Text
  import opened FilterParser
  import opened FilterRoundTrip

  // ----- value lists -----

  /** One item of a value list. A quoted part may come after blank text, and starts the value anew;
      what follows the last quoted part is added to it. */
  datatype Item = Open(text: string) | Quoted(before: string, quoted: string, rest: Item)

  function Render(item: Item): string {
    match item
    case Open(text) => text
    case Quoted(before, quoted, rest) => before + ("\"" + quoted + "\"" + Render(rest))
  }

  predicate Unmarked(t: string) { '"' !in t && ',' !in t && '=' !in t }

  /** held is what the scanner has collected before the item. */
  predicate Fits(item: Item, held: string) {
    match item
    case Open(text) => Unmarked(text)
    case Quoted(before, quoted, rest) =>
      Unmarked(before) && Blank(held + before) && '"' !in quoted && Fits(rest, quoted)
  }

  function Held(item: Item, held: string): string {
    match item
    case Open(text) => held + text
    case Quoted(_, quoted, rest) => Held(rest, quoted)
  }

  function RenderItems(items: seq<Item>): string {
    if items == [] then ""
    else if |items| == 1 then Render(items[0])
    else Render(items[0]) + ("," + RenderItems(items[1..]))
  }

  /** The items fit, and stand for these values, none of them empty. */
  predicate Reads(items: seq<Item>, held: string, vs: seq<string>): (yes: bool)
    ensures yes ==> items != [] && Fits(items[0], held)
  {
    && items != [] && |vs| == |items| && Fits(items[0], held)
    && vs[0] == TrimSpace(Held(items[0], held)) && vs[0] != ""
    && (|items| == 1 || Reads(items[1..], "", vs[1..]))
  }

  lemma {:induction false} ItemRun(item: Item, rest: string, held: string, out: seq<string>)
    requires Fits(item, held)
    ensures ValuesFrom(Render(item) + rest, false, held, out) == ValuesFrom(rest, false, Held(item, held), out)
  {
    hide ValuesFrom, Blank, Unmarked;
    match item
    case Open(text) => UnmarkedRun(text, rest, held, out);
    case Quoted(before, quoted, more) =>
      var tail := "\"" + quoted + "\"" + Render(more) + rest;
      assert Render(item) + rest == before + tail;
      UnmarkedRun(before, tail, held, out);
      QuoteRun(quoted, Render(more) + rest, held + before, out);
      assert tail == "\"" + quoted + "\"" + (Render(more) + rest);
      ItemRun(more, rest, quoted, out);
  }

  lemma {:induction false} UnmarkedRun(t: string, rest: string, held: string, out: seq<string>)
    requires Unmarked(t)
    ensures ValuesFrom(t + rest, false, held, out) == ValuesFrom(rest, false, held + t, out)
  {
    hide Trim, TrimSpace;
    if t == "" {
      assert t + rest == rest && held + t == held;
    } else {
      assert (t + rest)[1..] == t[1..] + rest && held + t == held + [t[0]] + t[1..];
      UnmarkedRun(t[1..], rest, held + [t[0]], out);
    }
  }

  lemma QuoteRun(quoted: string, rest: string, held: string, out: seq<string>)
    requires '"' !in quoted && Blank(held)
    ensures ValuesFrom("\"" + quoted + "\"" + rest, false, held, out) == ValuesFrom(rest, false, quoted, out)
  {
    hide Trim, TrimSpace;
    var whole := "\"" + quoted + "\"" + rest;
    assert whole[0] == '"' && whole[1..] == quoted + "\"" + rest;
    ValueText(quoted, rest, "", out);
    assert "" + quoted == quoted;
  }

  lemma {:induction false} ItemsAccepted(items: seq<Item>, held: string, vs: seq<string>, out: seq<string>)
    requires Reads(items, held, vs)
    ensures ValuesFrom(RenderItems(items), false, held, out) == Some(out + vs)
  {
    hide ValuesFrom, TrimSpace, Fits, Held;
    var item := items[0];
    if |items| == 1 {
      ItemRun(item, "", held, out);
      assert Render(item) + "" == Render(item);
      EndRead(Held(item, held), out);
      assert vs == [vs[0]];
    } else {
      var rest := RenderItems(items[1..]);
      ItemRun(item, "," + rest, held, out);
      CommaRead(Held(item, held), rest, out);
      ItemsAccepted(items[1..], "", vs[1..], out + [vs[0]]);
      assert out + [vs[0]] + vs[1..] == out + vs;
    }
  }

  /** The text up to the closing quote. */
  lemma {:induction false} FindQuote(rest: string, held: string, out: seq<string>)
    returns (quoted: string, after: string)
    requires ValuesFrom(rest, true, held, out).Some?
    ensures rest == quoted + ("\"" + after) && '"' !in quoted
    ensures ValuesFrom(rest, true, held, out) == ValuesFrom(after, false, held + quoted, out)
    decreases |rest|
  {
    hide Trim, TrimSpace;
    if rest[0] == '"' {
      quoted, after := "", rest[1..];
      assert held + quoted == held;
    } else {
      var q, a := FindQuote(rest[1..], held + [rest[0]], out);
      quoted, after := [rest[0]] + q, a;
      assert held + quoted == held + [rest[0]] + q;
      assert rest == [rest[0]] + rest[1..];
    }
  }

  function Prepend(c: char, item: Item): Item {
    match item
    case Open(text) => Open([c] + text)
    case Quoted(before, quoted, rest) => Quoted([c] + before, quoted, rest)
  }

  lemma PrependFits(c: char, item: Item, held: string)
    requires Fits(item, held + [c]) && c != '"' && c != ',' && c != '='
    ensures Fits(Prepend(c, item), held) && Held(Prepend(c, item), held) == Held(item, held + [c])
    ensures Render(Prepend(c, item)) == [c] + Render(item)
  {
    hide Blank;
    match item
    case Open(text) => assert held + ([c] + text) == held + [c] + text;
    case Quoted(before, quoted, rest) => assert held + ([c] + before) == held + [c] + before;
  }

  /** Changing the first item, and the text before it, without changing what is collected. */
  lemma ReplaceFirst(more: seq<Item>, after: string, vs: seq<string>, item: Item, held: string, prefix: string)
    requires Reads(more, after, vs) && Fits(item, held) && Held(item, held) == Held(more[0], after)
    requires Render(item) == prefix + Render(more[0])
    ensures var items := [item] + more[1..];
      Reads(items, held, vs) && RenderItems(items) == prefix + RenderItems(more)
  {
    hide Fits, Held, Render, TrimSpace;
    var items := [item] + more[1..];
    assert items[1..] == more[1..];
  }

  lemma StartItem(more: seq<Item>, ws: seq<string>, held: string)
    requires Reads(more, "", ws) && TrimSpace(held) != ""
    ensures Reads([Open("")] + more, held, [TrimSpace(held)] + ws)
    ensures RenderItems([Open("")] + more) == "," + RenderItems(more)
  {
    hide TrimSpace;
    var items, vs := [Open("")] + more, [TrimSpace(held)] + ws;
    assert items[1..] == more && vs[1..] == ws && held + "" == held;
  }

  lemma LastItem(held: string)
    requires TrimSpace(held) != ""
    ensures Reads([Open("")], held, [TrimSpace(held)]) && RenderItems([Open("")]) == ""
  {
    hide TrimSpace;
    assert held + "" == held;
  }

  lemma OpenQuote(quoted: string, more: Item, held: string)
    requires Blank(held) && '"' !in quoted && Fits(more, quoted)
    ensures var item := Quoted("", quoted, more);
      Fits(item, held) && Held(item, held) == Held(more, quoted) && Render(item) == "\"" + quoted + "\"" + Render(more)
  {
    hide Blank;
    assert held + "" == held;
  }

  /** One step of an accepting scan outside quotes. */
  lemma ScanStep(rest: string, held: string, out: seq<string>)
    requires ValuesFrom(rest, false, held, out).Some?
    ensures var r, token := ValuesFrom(rest, false, held, out), TrimSpace(held);
      if rest == "" then token != "" && r == Some(out + [token])
      else if rest[0] == '"' then Blank(held) && r == ValuesFrom(rest[1..], true, "", out)
      else if rest[0] == ',' then token != "" && r == ValuesFrom(rest[1..], false, "", out + [token])
      else rest[0] != '=' && r == ValuesFrom(rest[1..], false, held + [rest[0]], out)
  {
    hide Trim;
  }

  /** Whatever the value scanner accepts is rendered from items. */
  lemma {:induction false} DeriveItems(rest: string, held: string, out: seq<string>)
    returns (items: seq<Item>, vs: seq<string>)
    requires ValuesFrom(rest, false, held, out).Some?
    ensures RenderItems(items) == rest && Reads(items, held, vs)
    ensures ValuesFrom(rest, false, held, out) == Some(out + vs)
    decreases |rest|
  {
    hide TrimSpace, RenderItems, Fits, Held, Render, Reads, ValuesFrom, Blank;
    var token := TrimSpace(held);
    ScanStep(rest, held, out);
    if rest == "" {
      items, vs := [Open("")], [token];
      LastItem(held);
    } else if rest[0] == '"' {
      var quoted, after := FindQuote(rest[1..], "", out);
      assert "" + quoted == quoted;
      var more, ws := DeriveItems(after, quoted, out);
      var item := Quoted("", quoted, more[0]);
      OpenQuote(quoted, more[0], held);
      ReplaceFirst(more, quoted, ws, item, held, "\"" + quoted + "\"");
      items, vs := [item] + more[1..], ws;
      assert rest == "\"" + quoted + "\"" + after;
    } else if rest[0] == ',' {
      var more, ws := DeriveItems(rest[1..], "", out + [token]);
      StartItem(more, ws, held);
      items, vs := [Open("")] + more, [token] + ws;
      assert out + [token] + ws == out + vs;
      assert rest == "," + rest[1..];
    } else {
      var more, ws := DeriveItems(rest[1..], held + [rest[0]], out);
      PrependFits(rest[0], more[0], held);
      ReplaceFirst(more, held + [rest[0]], ws, Prepend(rest[0], more[0]), held, [rest[0]]);
      items, vs := [Prepend(rest[0], more[0])] + more[1..], ws;
      assert rest == [rest[0]] + rest[1..];
    }
  }

  /** The value lists that are accepted, and what they mean. */
  lemma ValuesExactly(s: string, vs: seq<string>)
    ensures ValuesFrom(s, false, "", []) == Some(vs) <==>
      exists items :: s == RenderItems(items) && Reads(items, "", vs)
  {
    hide ValuesFrom, Reads, RenderItems;
    if ValuesFrom(s, false, "", []) == Some(vs) {
      var items, ws := DeriveItems(s, "", []);
      assert [] + ws == ws;
    }
    if exists items :: s == RenderItems(items) && Reads(items, "", vs) {
      var items :| s == RenderItems(items) && Reads(items, "", vs);
      ItemsAccepted(items, "", vs, []);
      assert [] + vs == vs;
    }
  }

  // ----- clauses -----

  /** Quotes are closed, and no equals sign is outside them. */
  predicate Clear(f: string, inQuote: bool) {
    if f == "" then !inQuote
    else (inQuote || f[0] != '=') && Clear(f[1..], if f[0] == '"' then !inQuote else inQuote)
  }

  lemma {:induction false} EqualExactly(f: string, raw: string, inQuote: bool)
    ensures EqualAt(f + "=" + raw, inQuote) == Some(|f|) <==> Clear(f, inQuote)
  {
    var text := f + "=" + raw;
    if f == "" {
      assert text[0] == '=';
    } else {
      assert text[1..] == f[1..] + "=" + raw;
      EqualExactly(f[1..], raw, if f[0] == '"' then !inQuote else inQuote);
    }
  }

  /** f, an equals sign and raw: a field and a list of items for this clause. */
  predicate ClauseParts(f: string, raw: string, items: seq<Item>, c: Clause) {
    && Clear(f, false) && TrimSpace(f) == c.field && c.field != ""
    && TrimSpace(raw) == RenderItems(items) && Reads(items, "", c.values)
  }

  ghost predicate Derives(text: string, c: Clause) {
    exists f, raw, items :: text == f + "=" + raw && ClauseParts(f, raw, items, c)
  }

  lemma ClauseExactly(text: string, c: Clause)
    ensures ParseClause(text) == Some(c) <==> Derives(text, c)
  {
    hide ParseClause, ClauseParts;
    if ParseClause(text) == Some(c) {
      var f, raw, items := DeriveClause(text, c);
    }
    if Derives(text, c) {
      var f, raw, items :| text == f + "=" + raw && ClauseParts(f, raw, items, c);
      ClauseAccepted(f, raw, items, c);
    }
  }

  lemma DeriveClause(text: string, c: Clause) returns (f: string, raw: string, items: seq<Item>)
    requires ParseClause(text) == Some(c)
    ensures text == f + "=" + raw && ClauseParts(f, raw, items, c)
  {
    hide ValuesFrom, EqualAt, Clear, Reads, RenderItems, TrimSpace;
    var at := EqualAt(text, false).value;
    f, raw := text[..at], text[at + 1..];
    assert text == f + "=" + raw;
    EqualExactly(f, raw, false);
    ValuesExactly(TrimSpace(raw), c.values);
    items :| TrimSpace(raw) == RenderItems(items) && Reads(items, "", c.values);
  }

  lemma ClauseAccepted(f: string, raw: string, items: seq<Item>, c: Clause)
    requires ClauseParts(f, raw, items, c)
    ensures ParseClause(f + "=" + raw) == Some(c)
  {
    hide ValuesFrom, EqualAt, Clear, Reads, RenderItems, TrimSpace;
    var text := f + "=" + raw;
    EqualExactly(f, raw, false);
    ItemsAccepted(items, "", c.values, []);
    assert [] + c.values == c.values;
    assert text[..|f|] == f && text[|f| + 1..] == raw;
    assert EqualAt(text, false) == Some(|f|);
    assert ValuesFrom(TrimSpace(raw), false, "", []) == Some(c.values);
    NothingIsNoValue();
    assert TrimSpace(raw) != "";
  }

  lemma NothingIsNoValue()
    ensures ValuesFrom("", false, "", []).None?
  {
  }

  ghost predicate DerivesAll(texts: seq<string>, cs: seq<Clause>, accepts: Clause -> bool) {
    |texts| == |cs| && Distinct(Fields(cs)) && forall i | 0 <= i < |cs| :: Derives(texts[i], cs[i]) && accepts(cs[i])
  }

  lemma {:induction false} ClausesExactly(texts: seq<string>, cs: seq<Clause>, accepts: Clause -> bool)
    ensures ParseClauses(texts, accepts) == Some(cs) <==> DerivesAll(texts, cs, accepts)
  {
    hide Derives, ParseClause, Distinct;
    if |texts| == |cs| && texts != [] {
      var n := |texts| - 1;
      ClausesExactly(texts[..n], cs[..n], accepts);
      ClauseExactly(texts[n], cs[n]);
      assert cs == cs[..n] + [cs[n]];
      assert Fields(cs) == Fields(cs[..n]) + [cs[n].field];
      DistinctSnoc(Fields(cs[..n]), cs[n].field);
      assert DerivesAll(texts, cs, accepts) <==>
        DerivesAll(texts[..n], cs[..n], accepts) && Derives(texts[n], cs[n]) && accepts(cs[n])
        && cs[n].field !in Fields(cs[..n]);
    } else if texts == [] && cs == [] {
      assert Distinct(Fields(cs)) by { ReadNone(accepts); }
    }
  }

  // ----- the whole filter -----

  /** Whitespace, the word AND, and the piece of text up to the next one. */
  datatype Joined = Joined(gap: string, piece: string)

  function RenderMore(more: seq<Joined>): string {
    if more == [] then "" else more[0].gap + ("AND" + (more[0].piece + RenderMore(more[1..])))
  }

  /** Quotes are closed, and no whitespace outside them is followed by the word AND. */
  predicate Solid(p: string, inQuote: bool, tail: string) {
    if p == "" then !inQuote
    else if p[0] == '"' then Solid(p[1..], !inQuote, tail)
    else (inQuote || !IsSpace(p[0]) || !AndAt(p + tail, Lead(p + tail, IsSpace))) && Solid(p[1..], inQuote, tail)
  }

  predicate AllSpace(s: string) { s != "" && forall i | 0 <= i < |s| :: IsSpace(s[i]) }

  predicate FitsMore(more: seq<Joined>) {
    more == [] ||
    (var rest := RenderMore(more[1..]); var after := more[0].piece + rest;
     AllSpace(more[0].gap) && (after == "" || IsSpace(after[0])) &&
     Solid(more[0].piece, false, rest) && FitsMore(more[1..]))
  }

  /** The pieces, trimmed, without the blank ones. */
  function Pieces(first: string, more: seq<Joined>, acc: seq<string>): seq<string>
    decreases |more|
  {
    if more == [] then Flush(first, acc) else Pieces(more[0].piece, more[1..], Flush(first, acc))
  }

  lemma {:induction false} SolidRun(p: string, inQuote: bool, tail: string, cur: string, acc: seq<string>)
    requires Solid(p, inQuote, tail)
    ensures SplitFrom(p + tail, inQuote, cur, acc) == SplitFrom(tail, false, cur + p, acc)
  {
    hide Flush, AndAt, Lead, IsSpace;
    if p == "" {
      assert p + tail == tail && cur + p == cur;
    } else {
      assert (p + tail)[1..] == p[1..] + tail && cur + p == cur + [p[0]] + p[1..];
      SolidRun(p[1..], if p[0] == '"' then !inQuote else inQuote, tail, cur + [p[0]], acc);
    }
  }

  lemma {:induction false} LeadIs(gap: string, rest: string)
    requires (forall i | 0 <= i < |gap| :: IsSpace(gap[i])) && (rest == "" || !IsSpace(rest[0]))
    ensures Lead(gap + rest, IsSpace) == |gap|
  {
    hide IsSpace;
    if gap == "" {
      assert gap + rest == rest;
    } else {
      assert (gap + rest)[1..] == gap[1..] + rest;
      LeadIs(gap[1..], rest);
    }
  }

  lemma GapRun(gap: string, after: string, cur: string, acc: seq<string>)
    requires AllSpace(gap) && (after == "" || IsSpace(after[0]))
    ensures SplitFrom(gap + ("AND" + after), false, cur, acc) == SplitFrom(after, false, "", Flush(cur, acc))
  {
    hide Flush;
    var whole, n := gap + ("AND" + after), |gap|;
    assert !IsSpace(("AND" + after)[0]);
    LeadIs(gap, "AND" + after);
    assert whole[n..n + 3] == "AND" && whole[n + 3..] == after;
    assert after != "" ==> whole[n + 3] == after[0];
    assert whole[0] == gap[0] && IsSpace(whole[0]) && !IsSpace('"');
  }

  lemma {:induction false} PartsAccepted(first: string, more: seq<Joined>, cur: string, acc: seq<string>)
    requires Solid(first, false, RenderMore(more)) && FitsMore(more)
    ensures var texts := Pieces(cur + first, more, acc);
      SplitFrom(first + RenderMore(more), false, cur, acc) == if texts == [] then None else Some(texts)
    decreases |more|
  {
    hide Flush, Solid, IsSpace, AllSpace, SplitFrom;
    SolidRun(first, false, RenderMore(more), cur, acc);
    if more == [] {
      SplitEnd(cur + first, acc);
    } else {
      var rest := RenderMore(more[1..]);
      GapRun(more[0].gap, more[0].piece + rest, cur + first, acc);
      PartsAccepted(more[0].piece, more[1..], "", Flush(cur + first, acc));
      assert "" + more[0].piece == more[0].piece;
    }
  }

  lemma SplitEnd(cur: string, acc: seq<string>)
    ensures SplitFrom("", false, cur, acc) == if Flush(cur, acc) == [] then None else Some(Flush(cur, acc))
  {
    hide Flush;
  }

  lemma {:induction false} LeadIsSpace(s: string)
    ensures forall i | 0 <= i < Lead(s, IsSpace) :: IsSpace(s[i])
  {
    hide IsSpace;
    if s != "" && IsSpace(s[0]) {
      LeadIsSpace(s[1..]);
      forall i | 0 <= i < Lead(s, IsSpace) ensures IsSpace(s[i]) {
        if i > 0 { assert s[i] == s[1..][i - 1]; }
      }
    }
  }

  /** Whatever the clause scanner accepts is rendered from pieces. */
  lemma {:induction false} DeriveParts(rest: string, inQuote: bool, cur: string, acc: seq<string>)
    returns (first: string, more: seq<Joined>)
    requires SplitFrom(rest, inQuote, cur, acc).Some?
    ensures rest == first + RenderMore(more) && Solid(first, inQuote, RenderMore(more)) && FitsMore(more)
    ensures SplitFrom(rest, inQuote, cur, acc) == Some(Pieces(cur + first, more, acc))
    decreases |rest|
  {
    hide Flush, AndAt, Lead, IsSpace, FitsMore, Pieces, SplitFrom, Solid, RenderMore;
    var n := Lead(rest, IsSpace);
    SplitStep(rest, inQuote, cur, acc);
    if rest == "" {
      SolidNil("");
      first, more := "", [];
      assert cur + "" == cur;
      NoMore(cur, acc);
    } else if rest[0] != '"' && !inQuote && IsSpace(rest[0]) && AndAt(rest, n) {
      var piece, others := DeriveParts(rest[n + 3..], false, "", Flush(cur, acc));
      first, more := "", [Joined(rest[..n], piece)] + others;
      assert "" + piece == piece && cur + "" == cur;
      CutHere(rest, piece, others, cur, acc);
      assert "" + RenderMore(more) == RenderMore(more);
      SolidNil(RenderMore(more));
    } else {
      var f, others := DeriveParts(rest[1..], if rest[0] == '"' then !inQuote else inQuote, cur + [rest[0]], acc);
      first, more := [rest[0]] + f, others;
      assert cur + first == cur + [rest[0]] + f;
      assert rest == [rest[0]] + rest[1..] == first + RenderMore(more);
      SolidCons(rest, f, inQuote, RenderMore(more));
    }
  }

  /** One step of an accepting scan. */
  lemma SplitStep(rest: string, inQuote: bool, cur: string, acc: seq<string>)
    requires SplitFrom(rest, inQuote, cur, acc).Some?
    ensures var r, n := SplitFrom(rest, inQuote, cur, acc), Lead(rest, IsSpace);
      if rest == "" then !inQuote && r == Some(Flush(cur, acc))
      else if rest[0] != '"' && !inQuote && IsSpace(rest[0]) && AndAt(rest, n) then
        r == SplitFrom(rest[n + 3..], false, "", Flush(cur, acc))
      else r == SplitFrom(rest[1..], if rest[0] == '"' then !inQuote else inQuote, cur + [rest[0]], acc)
  {
    hide Flush, IsSpace, Lead, AndAt;
  }

  lemma SolidCons(rest: string, f: string, inQuote: bool, tail: string)
    requires rest != "" && rest[1..] == f + tail
    requires Solid(f, if rest[0] == '"' then !inQuote else inQuote, tail)
    requires rest[0] == '"' || inQuote || !IsSpace(rest[0]) || !AndAt(rest, Lead(rest, IsSpace))
    ensures Solid([rest[0]] + f, inQuote, tail)
  {
    hide IsSpace, Lead, AndAt;
    var p := [rest[0]] + f;
    assert p[1..] == f && p + tail == rest;
  }

  lemma SolidNil(tail: string)
    ensures Solid("", false, tail)
  {
  }

  lemma NoMore(cur: string, acc: seq<string>)
    ensures FitsMore([]) && Pieces(cur, [], acc) == Flush(cur, acc) && RenderMore([]) == ""
  {
  }

  lemma CutHere(rest: string, piece: string, others: seq<Joined>, cur: string, acc: seq<string>)
    requires var n := Lead(rest, IsSpace);
      && n <= |rest| && AndAt(rest, n) && rest[0] != '"' && IsSpace(rest[0])
      && rest[n + 3..] == piece + RenderMore(others) && Solid(piece, false, RenderMore(others)) && FitsMore(others)
    ensures var more := [Joined(rest[..Lead(rest, IsSpace)], piece)] + others;
      FitsMore(more) && RenderMore(more) == rest && Pieces(cur, more, acc) == Pieces(piece, others, Flush(cur, acc))
  {
    hide Flush, Solid, IsSpace;
    var n := Lead(rest, IsSpace);
    var more := [Joined(rest[..n], piece)] + others;
    assert more[1..] == others;
    LeadIsSpace(rest);
    assert n > 0 && forall i | 0 <= i < n :: rest[..n][i] == rest[i];
    assert AllSpace(rest[..n]);
    assert rest[n..] == rest[n..n + 3] + rest[n + 3..];
    assert rest == rest[..n] + rest[n..];
    assert rest[n + 3..] != "" ==> rest[n + 3..][0] == rest[n + 3];
  }

  ghost predicate FilterParts(s: string, texts: seq<string>) {
    exists first, more :: s == first + RenderMore(more) && Solid(first, false, RenderMore(more)) && FitsMore(more)
      && texts == Pieces(first, more, []) && texts != []
  }

  lemma SplitExactly(s: string, texts: seq<string>)
    ensures SplitFrom(s, false, "", []) == Some(texts) <==> FilterParts(s, texts)
  {
    hide SplitFrom, Solid, FitsMore, Pieces, RenderMore;
    if SplitFrom(s, false, "", []) == Some(texts) {
      var first, more := DeriveParts(s, false, "", []);
      assert "" + first == first;
      PartsAccepted(first, more, "", []);
    }
    if FilterParts(s, texts) {
      var first, more :| s == first + RenderMore(more) && Solid(first, false, RenderMore(more)) && FitsMore(more)
        && texts == Pieces(first, more, []) && texts != [];
      assert "" + first == first;
      PartsAccepted(first, more, "", []);
    }
  }

  /** The bytes of a character (section 3 of RFC 3629). */
  function Bytes(c: char): (r: seq<int>)
    ensures forall b | b in r :: 0 <= b <= 0xFF
  {
    var n := c as int;
    if n <= 0x7F then [n]
    else if n <= 0x7FF then [0xC0 + n / 0x40, 0x80 + n % 0x40]
    else if n <= 0xFFFF then [0xE0 + n / 0x1000, 0x80 + n / 0x40 % 0x40, 0x80 + n % 0x40]
    else [0xF0 + n / 0x4_0000, 0x80 + n / 0x1000 % 0x40, 0x80 + n / 0x40 % 0x40, 0x80 + n % 0x40]
  }

  function Utf8(s: string): seq<int> {
    if s == "" then [] else Bytes(s[0]) + Utf8(s[1..])
  }

  lemma {:induction false} LengthInBytes(s: string)
    ensures ByteLen(s) == |Utf8(s)|
  {
    if s != "" { LengthInBytes(s[1..]); }
  }

  /** The filters that are accepted, and the clauses they mean: blank input, or pieces of text between
      ANDs, at least one of them not blank, whose non-blank ones are clauses with different fields. */
  lemma AcceptedExactly(input: string, accepts: Clause -> bool, cs: seq<Clause>)
    ensures ParseFilter(input, accepts) == Some(cs) <==>
      && |Utf8(input)| <= 2048
      && if TrimSpace(input) == "" then cs == []
         else exists texts :: FilterParts(TrimSpace(input), texts) && DerivesAll(texts, cs, accepts)
  {
    hide SplitFrom, FilterParts, ParseClauses, DerivesAll, TrimSpace, ByteLen, Utf8;
    LengthInBytes(input);
    var split := SplitFrom(TrimSpace(input), false, "", []);
    if split.Some? {
      SplitExactly(TrimSpace(input), split.value);
      ClausesExactly(split.value, cs, accepts);
    }
    forall texts | FilterParts(TrimSpace(input), texts) ensures split == Some(texts) {
      SplitExactly(TrimSpace(input), texts);
    }
  }

  // ----- filters outside the documented grammar -----

  predicate Smooth(p: string) { forall i | 0 <= i < |p| :: p[i] != '"' && p[i] != '=' && !IsSpace(p[i]) }

  lemma {:induction false} SmoothIsClear(f: string)
    requires Smooth(f)
    ensures Clear(f, false)
  {
    hide IsSpace;
    if f != "" { SmoothIsClear(f[1..]); }
  }

  lemma {:induction false} SolidWord(p: string, inQuote: bool, tail: string)
    requires !inQuote && forall i | 0 <= i < |p| :: p[i] != '"' && !IsSpace(p[i])
    ensures Solid(p, inQuote, tail)
  {
    hide IsSpace, AndAt, Lead;
    if p != "" { SolidWord(p[1..], inQuote, tail); }
  }

  /** A filter whose pieces are known, and are these clauses. */
  lemma FilterOf(input: string, first: string, more: seq<Joined>, texts: seq<string>, cs: seq<Clause>,
                 accepts: Clause -> bool)
    requires input != "" && Trimmed(input, IsSpace) && 4 * |input| <= FILTER_MAX_LEN
    requires input == first + RenderMore(more) && Solid(first, false, RenderMore(more)) && FitsMore(more)
    requires texts == Pieces(first, more, []) && texts != [] && DerivesAll(texts, cs, accepts)
    ensures ParseFilter(input, accepts) == Some(cs)
  {
    hide ParseFilter, Solid, FitsMore, Pieces, RenderMore, DerivesAll, ByteLen, Utf8, IsSpace;
    LengthInBytes(input);
    FourBytesEach(input);
    assert TrimSpace(input) == input;
    assert FilterParts(input, texts);
    AcceptedExactly(input, accepts, cs);
  }

  lemma SimpleClause(f: string, v: string)
    requires f != "" && Smooth(f) && v != "" && Smooth(v) && ',' !in v
    ensures Derives(f + "=" + v, Clause(f, [v]))
  {
    hide Clear, IsSpace;
    SmoothIsClear(f);
    var items := [Open(v)];
    assert '"' !in v && '=' !in v;
    assert Trimmed(f, IsSpace) && Trimmed(v, IsSpace);
    assert "" + v == v;
    assert RenderItems(items) == v && Reads(items, "", [v]);
    assert ClauseParts(f, v, items, Clause(f, [v]));
  }

  lemma Letters()
    ensures forall c: char | 'A' <= c <= 'z' :: !IsSpace(c)
    ensures !IsSpace('"') && !IsSpace('=') && IsSpace(' ')
  {
  }

  /** type=a AND. */
  lemma TrailingAnd(accepts: Clause -> bool)
    requires accepts(Clause("type", ["a"]))
    ensures ParseFilter("type=a AND", accepts) == Some([Clause("type", ["a"])])
  {
    hide ParseFilter, IsSpace, Flush, Solid, Derives;
    Letters();
    var end := [Joined(" ", "")];
    assert end[1..] == [] && RenderMore(end) == " AND" && RenderMore(end[1..]) == "";
    SolidWord("type=a", false, " AND");
    SolidNil("");
    assert FitsMore(end[1..]) && FitsMore(end);
    KeepWord("type=a", []);
    DropBlank(["type=a"]);
    assert [] + ["type=a"] == ["type=a"];
    assert Pieces("type=a", end, []) == Pieces("", [], ["type=a"]) == ["type=a"];
    SimpleClause("type", "a");
    assert "type" + "=" + "a" == "type=a" && "type=a" + " AND" == "type=a AND";
    assert Fields([Clause("type", ["a"])]) == ["type"];
    FilterOf("type=a AND", "type=a", end, ["type=a"], [Clause("type", ["a"])], accepts);
  }

  /** type=a AND AND safe=b. */
  lemma DoubledAnd(accepts: Clause -> bool)
    requires accepts(Clause("type", ["a"])) && accepts(Clause("safe", ["b"]))
    ensures ParseFilter("type=a AND AND safe=b", accepts) == Some([Clause("type", ["a"]), Clause("safe", ["b"])])
  {
    hide ParseFilter, IsSpace, Pieces, DerivesAll, FitsMore, Solid, RenderMore;
    Letters();
    var one := [Joined(" ", " safe=b")];
    var two := [Joined(" ", "")] + one;
    DoubledText(one, two);
    DoubledFits(one, two);
    DoubledPieces(one, two);
    DoubledClauses(accepts);
    var input, cs := "type=a AND AND safe=b", [Clause("type", ["a"]), Clause("safe", ["b"])];
    assert "type=a" + " AND AND safe=b" == input;
    FilterOf(input, "type=a", two, ["type=a", "safe=b"], cs, accepts);
  }

  lemma DoubledText(one: seq<Joined>, two: seq<Joined>)
    requires one == [Joined(" ", " safe=b")] && two == [Joined(" ", "")] + one
    ensures RenderMore(one) == " AND safe=b" && RenderMore(two) == " AND AND safe=b"
  {
    assert one[1..] == [] && two[1..] == one && RenderMore([]) == "";
  }

  lemma DoubledPieces(one: seq<Joined>, two: seq<Joined>)
    requires one == [Joined(" ", " safe=b")] && two == [Joined(" ", "")] + one
    ensures Pieces("type=a", two, []) == ["type=a", "safe=b"]
  {
    hide IsSpace, Flush;
    Letters();
    assert one[1..] == [] && two[1..] == one;
    KeepWord("type=a", []);
    DropBlank(["type=a"]);
    KeepSpacedWord("safe=b", ["type=a"]);
    assert [] + ["type=a"] == ["type=a"] && " " + "safe=b" == " safe=b";
    assert ["type=a"] + ["safe=b"] == ["type=a", "safe=b"];
    assert Pieces("type=a", two, []) == Pieces("", one, ["type=a"]) == Pieces(" safe=b", [], ["type=a"]);
  }

  lemma DoubledClauses(accepts: Clause -> bool)
    requires accepts(Clause("type", ["a"])) && accepts(Clause("safe", ["b"]))
    ensures DerivesAll(["type=a", "safe=b"], [Clause("type", ["a"]), Clause("safe", ["b"])], accepts)
  {
    hide IsSpace, Derives;
    Letters();
    SimpleClause("type", "a");
    SimpleClause("safe", "b");
    assert "type" + "=" + "a" == "type=a" && "safe" + "=" + "b" == "safe=b";
    var cs := [Clause("type", ["a"]), Clause("safe", ["b"])];
    assert Fields(cs) == ["type", "safe"];
    assert "type"[0] != "safe"[0];
  }

  lemma DoubledFits(one: seq<Joined>, two: seq<Joined>)
    requires one == [Joined(" ", " safe=b")] && two == [Joined(" ", "")] + one
    requires RenderMore(one) == " AND safe=b" && RenderMore(two) == " AND AND safe=b"
    ensures FitsMore(two) && Solid("type=a", false, " AND AND safe=b")
  {
    hide IsSpace;
    Letters();
    assert one[1..] == [] && two[1..] == one && RenderMore([]) == "";
    SolidWord("type=a", false, " AND AND safe=b");
    SolidSpaced();
    SolidNil(" AND safe=b");
    assert FitsMore([]) && FitsMore(one);
  }

  lemma SolidSpaced()
    ensures Solid(" safe=b", false, "")
  {
    hide IsSpace;
    Letters();
    var p := " safe=b";
    assert p[1..] == "safe=b" && p + "" == p;
    SolidWord("safe=b", false, "");
    LeadIs(" ", "safe=b");
    assert " " + "safe=b" == p;
    assert p[1..4] == "saf" && "saf"[0] != "AND"[0];
  }

  lemma KeepWord(p: string, acc: seq<string>)
    requires p != "" && Trimmed(p, IsSpace)
    ensures Flush(p, acc) == acc + [p]
  {
  }

  lemma KeepSpacedWord(p: string, acc: seq<string>)
    requires p != "" && Trimmed(p, IsSpace)
    ensures Flush(" " + p, acc) == acc + [p]
  {
    TrimLeadingSpace(p);
  }

  lemma DropBlank(acc: seq<string>)
    ensures Flush("", acc) == acc
  {
  }

  /** type="a"b is one value, ab. */
  lemma QuotedTailIsAdded(accepts: Clause -> bool)
    requires accepts(Clause("type", ["ab"]))
    ensures ParseFilter("type=\"a\"b", accepts) == Some([Clause("type", ["ab"])])
  {
    hide ParseFilter, IsSpace, Flush, Solid, Derives;
    Letters();
    var text := "type=\"a\"b";
    assert Trimmed(text, IsSpace);
    QuotedClause();
    KeepWord(text, []);
    NoMore(text, []);
    SolidQuoted(text);
    assert [] + [text] == [text] && text + RenderMore([]) == text;
    assert Fields([Clause("type", ["ab"])]) == ["type"];
    FilterOf(text, text, [], [text], [Clause("type", ["ab"])], accepts);
  }

  lemma QuotedClause()
    ensures Derives("type=\"a\"b", Clause("type", ["ab"]))
  {
    hide IsSpace, Clear, RenderItems, Reads;
    Letters();
    var raw, items := "\"a\"b", [Quoted("", "a", Open("b"))];
    assert "type=\"a\"b" == "type" + "=" + raw;
    QuotedParts(raw, items);
    SmoothIsClear("type");
    assert Trimmed("type", IsSpace) && Trimmed(raw, IsSpace);
    assert ClauseParts("type", raw, items, Clause("type", ["ab"]));
  }

  lemma QuotedParts(raw: string, items: seq<Item>)
    requires raw == "\"a\"b" && items == [Quoted("", "a", Open("b"))]
    ensures RenderItems(items) == raw && Reads(items, "", ["ab"])
  {
    hide IsSpace, TrimSpace;
    assert "" + "" == "" && "a" + "b" == "ab";
    NoSpaces();
    assert Render(items[0]) == "" + ("\"" + "a" + "\"" + "b") == raw;
  }

  lemma NoSpaces()
    ensures Trimmed("ab", IsSpace) && TrimSpace("ab") == "ab" && Blank("")
  {
  }

  lemma SolidQuoted(text: string)
    requires text == "type=\"a\"b"
    ensures Solid(text, false, "")
  {
    hide IsSpace, AndAt, Lead;
    Letters();
    SolidAfter("type=", "\"a\"b", "");
    var q := "\"a\"b";
    assert q[1..] == "a\"b" && q[1..][1..] == "\"b" && q[1..][1..][1..] == "b";
    SolidWord("b", false, "");
    assert Solid("\"b", true, "") && Solid("a\"b", true, "") && Solid(q, false, "");
    assert "type=" + q == text;
  }

  lemma {:induction false} SolidAfter(p: string, q: string, tail: string)
    requires forall i | 0 <= i < |p| :: p[i] != '"' && !IsSpace(p[i])
    ensures Solid(p + q, false, tail) <==> Solid(q, false, tail)
  {
    hide IsSpace, AndAt, Lead;
    if p == "" {
      assert p + q == q;
    } else {
      assert (p + q)[1..] == p[1..] + q;
      SolidAfter(p[1..], q, tail);
    }
  }
}
