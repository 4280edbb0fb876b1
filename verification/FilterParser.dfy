/** The AI Finder filter parser: server/controller/ai_finder_filter.go. None stands for a
    rejected filter. Text is Unicode code points; the delimiters are ASCII, so the byte-wise
    value scanner and the rune-wise clause scanner see the same characters. */
module FilterParser {
  import opened Basics
  import opened Text

  const FILTER_MAX_LEN := 2048

  /** len() of a Go string: its UTF-8 length. */
  function ByteLen(s: string): nat {
    if s == "" then 0
    else
      var width := if s[0] < '\U{0080}' then 1 else if s[0] < '\U{0800}' then 2
        else if s[0] < '\U{10000}' then 3 else 4;
      width + ByteLen(s[1..])
  }

  // ----- splitting into clauses -----

  /** matchKeywordAt(r, idx, "AND"). */
  predicate AndAt(r: string, idx: nat): (yes: bool)
    ensures yes ==> idx + 3 <= |r|
  {
    idx + 3 <= |r| && r[idx..idx + 3] == "AND" && (idx + 3 == |r| || IsSpace(r[idx + 3]))
  }

  function Flush(cur: string, clauses: seq<string>): seq<string> {
    var text := TrimSpace(cur);
    if text == "" then clauses else clauses + [text]
  }

  /** The scan from here on, given what has been read. */
  function SplitFrom(rest: string, inQuote: bool, cur: string, clauses: seq<string>): Option<seq<string>>
    decreases |rest|
  {
    if rest == "" then
      if inQuote || Flush(cur, clauses) == [] then None else Some(Flush(cur, clauses))
    else
      var r, spaces := rest[0], Lead(rest, IsSpace);
      if r == '"' then SplitFrom(rest[1..], !inQuote, cur + [r], clauses)
      else if !inQuote && IsSpace(r) && AndAt(rest, spaces) then
        SplitFrom(rest[spaces + 3..], false, "", Flush(cur, clauses))
      else SplitFrom(rest[1..], inQuote, cur + [r], clauses)
  }

  method SplitFilterClauses(s: string) returns (r: Option<seq<string>>)
    ensures r == SplitFrom(s, false, "", [])
  {
    hide Flush, IsSpace, Lead, AndAt;
    var clauses: seq<string>, current, inQuote := [], "", false;
    var i := 0;
    while i < |s|
      invariant i <= |s|
      invariant SplitFrom(s[i..], inQuote, current, clauses) == SplitFrom(s, false, "", [])
    {
      var c := s[i];
      assert s[i..][1..] == s[i + 1..];
      if c == '"' {
        inQuote := !inQuote;
        current := current + [c];
      } else {
        var spaces := Lead(s[i..], IsSpace);
        if !inQuote && IsSpace(c) && AndAt(s[i..], spaces) {
          clauses := Flush(current, clauses);
          current := "";
          assert s[i..][spaces + 3..] == s[i + spaces + 3..];
          i := i + spaces + 3 - 1;
        } else {
          current := current + [c];
        }
      }
      i := i + 1;
    }
    assert s[i..] == "";
    if inQuote { return None; }
    clauses := Flush(current, clauses);
    r := if |clauses| == 0 then None else Some(clauses);
  }

  // ----- field = value list -----

  /** Where the first '=' outside quotes is. */
  function EqualAt(s: string, inQuote: bool): (r: Option<nat>)
    ensures r.Some? ==> r.value < |s| && s[r.value] == '='
  {
    if s == "" then None
    else if s[0] == '=' && !inQuote then Some(0)
    else
      var later := EqualAt(s[1..], if s[0] == '"' then !inQuote else inQuote);
      if later.None? then None else Some(later.value + 1)
  }

  method SplitAtFirstEqual(s: string) returns (r: Option<(string, string)>)
    ensures var at := EqualAt(s, false);
      r == if at.None? then None else Some((s[..at.value], s[at.value + 1..]))
  {
    var inQuote := false;
    for i := 0 to |s|
      invariant var at := EqualAt(s[i..], inQuote);
        EqualAt(s, false) == if at.None? then None else Some(at.value + i)
    {
      assert s[i..][1..] == s[i + 1..];
      if s[i] == '"' {
        inQuote := !inQuote;
      } else if s[i] == '=' && !inQuote {
        return Some((s[..i], s[i + 1..]));
      }
    }
    return None;
  }

  function ValuesFrom(rest: string, inQuote: bool, cur: string, out: seq<string>): Option<seq<string>>
    decreases |rest|
  {
    var token := TrimSpace(cur);
    if rest == "" then
      if inQuote || token == "" then None else Some(out + [token])
    else if rest[0] == '"' then
      if inQuote then ValuesFrom(rest[1..], false, cur, out)
      else if token != "" then None
      else ValuesFrom(rest[1..], true, "", out)
    else if rest[0] == ',' && !inQuote then
      if token == "" then None else ValuesFrom(rest[1..], false, "", out + [token])
    else if rest[0] == '=' && !inQuote then None
    else ValuesFrom(rest[1..], inQuote, cur + [rest[0]], out)
  }

  method ParseValueList(s: string) returns (r: Option<seq<string>>)
    ensures r == ValuesFrom(s, false, "", [])
  {
    var out: seq<string>, current, inQuote := [], "", false;
    for i := 0 to |s|
      invariant ValuesFrom(s[i..], inQuote, current, out) == ValuesFrom(s, false, "", [])
    {
      var c := s[i];
      assert s[i..][1..] == s[i + 1..];
      if c == '"' {
        if inQuote {
          inQuote := false;
        } else {
          if |current| != 0 && TrimSpace(current) != "" { return None; }
          current := "";
          inQuote := true;
        }
      } else if c == ',' && !inQuote {
        var token := TrimSpace(current);
        if token == "" { return None; }
        out := out + [token];
        current := "";
      } else if c == '=' && !inQuote {
        return None;
      } else {
        current := current + [c];
      }
    }
    if inQuote { return None; }
    var token := TrimSpace(current);
    if token == "" { return None; }
    r := Some(out + [token]);
  }

  // ----- the whole filter -----

  datatype Clause = Clause(field: string, values: seq<string>)

  function ParseClause(text: string): Option<Clause> {
    var at := EqualAt(text, false);
    if at.None? then None
    else
      var field, raw := TrimSpace(text[..at.value]), TrimSpace(text[at.value + 1..]);
      if field == "" || raw == "" then None
      else
        var values := ValuesFrom(raw, false, "", []);
        if values.None? then None else Some(Clause(field, values.value))
  }

  /** The part of parseAgentFilter's loop body that concerns one clause alone. */
  method ReadClause(text: string) returns (r: Option<Clause>)
    ensures r == ParseClause(text)
  {
    var parts := SplitAtFirstEqual(text);
    if parts.None? { return None; }
    var field, raw := TrimSpace(parts.value.0), TrimSpace(parts.value.1);
    if field == "" || raw == "" { return None; }
    var values := ParseValueList(raw);
    if values.None? { return None; }
    r := Some(Clause(field, values.value));
  }

  function ParseClauses(texts: seq<string>, accepts: Clause -> bool): (r: Option<seq<Clause>>)
    ensures r.Some? ==> |r.value| == |texts|
  {
    if texts == [] then Some([])
    else
      var init, last := ParseClauses(texts[..|texts| - 1], accepts), ParseClause(texts[|texts| - 1]);
      if init.None? || last.None? || last.value.field in Fields(init.value) || !accepts(last.value) then None
      else Some(init.value + [last.value])
  }

  function Fields(cs: seq<Clause>): (r: seq<string>)
    ensures |r| == |cs| && forall i | 0 <= i < |r| :: r[i] == cs[i].field
  {
    seq(|cs|, i requires 0 <= i < |cs| => cs[i].field)
  }

  /** accepts is applyClause's verdict on a clause: known field, convertible values. */
  function ParseFilter(input: string, accepts: Clause -> bool): Option<seq<Clause>> {
    if ByteLen(input) > FILTER_MAX_LEN then None
    else if TrimSpace(input) == "" then Some([])
    else
      var texts := SplitFrom(TrimSpace(input), false, "", []);
      if texts.None? then None else ParseClauses(texts.value, accepts)
  }

  /** parseAgentFilter: the clauses handed to applyClause, in order. */
  method ParseAgentFilter(input: string, accepts: Clause -> bool) returns (r: Option<seq<Clause>>)
    ensures r == ParseFilter(input, accepts)
  {
    hide ParseClause, SplitFrom, ByteLen, Trim;
    if ByteLen(input) > FILTER_MAX_LEN { return None; }
    var trimmed := TrimSpace(input);
    if trimmed == "" { return Some([]); }
    var split := SplitFilterClauses(trimmed);
    if split.None? { return None; }
    var texts, out: seq<Clause>, seen: set<string> := split.value, [], {};
    for i := 0 to |texts|
      invariant ParseClauses(texts[..i], accepts) == Some(out)
      invariant seen == Elems(Fields(out))
    {
      assert texts[..i + 1][..i] == texts[..i];
      var clause := ReadClause(texts[i]);
      if clause.None? || clause.value.field in seen || !accepts(clause.value) {
        Rejected(texts, accepts, i + 1);
        return None;
      }
      var field := clause.value.field;
      assert Fields(out + [clause.value]) == Fields(out) + [field];
      ElemsSnoc(Fields(out), field);
      seen := seen + {field};
      out := out + [clause.value];
    }
    assert texts[..|texts|] == texts;
    r := Some(out);
  }

  /** One rejected clause rejects the filter. */
  lemma {:induction false} Rejected(texts: seq<string>, accepts: Clause -> bool, i: nat)
    requires i <= |texts| && ParseClauses(texts[..i], accepts).None?
    ensures ParseClauses(texts, accepts).None?
  {
    if i < |texts| {
      assert texts[..|texts| - 1][..i] == texts[..i];
      Rejected(texts[..|texts| - 1], accepts, i);
    } else {
      assert texts[..i] == texts;
    }
  }
}
