/** Label values, label keys and the datastore keys built from them:
    server/types/label.go and server/routing/label_utils.go. */
module Labels {
  import opened Basics
  import opened Text

  // ----- label types and value normalisation -----

  datatype LabelType = Unknown | Skill | Domain | Module | Locator {
    function Name(): string {
      match this
      case Unknown => ""
      case Skill => "skills"
      case Domain => "domains"
      case Module => "modules"
      case Locator => "locators"
    }

    function Prefix(): string {
      if Unknown? then "" else "/" + Name() + "/"
    }

    /** NormalizeValue, as a function of its input. */
    function Normalize(value: string): string {
      var collapsed := Collapse(TrimSpace(value));
      Trim(StripPrefix(this, collapsed), IsSlash)
    }

    function LabelKey(value: string): string {
      if Unknown? then value else Prefix() + Normalize(value)
    }

    function QueryTarget(value: string): string {
      Prefix() + Normalize(value)
    }
  }

  predicate HasDouble(s: string) {
    |s| >= 2 && ((s[0] == '/' && s[1] == '/') || HasDouble(s[1..]))
  }

  /** One pass of strings.ReplaceAll(s, "//", "/"). */
  function ReplacePass(s: string): (r: string)
    ensures |r| <= |s| && (s != "" ==> r != "" && r[0] == s[0])
    ensures HasDouble(s) ==> |r| < |s|
  {
    if |s| < 2 then s
    else if s[0] == '/' && s[1] == '/' then "/" + ReplacePass(s[2..])
    else [s[0]] + ReplacePass(s[1..])
  }

  /** Every run of slashes becomes a single slash. */
  function Collapse(s: string): (r: string)
    ensures |r| <= |s| && (s != "" ==> r != "" && r[0] == s[0])
    ensures !HasDouble(r)
    ensures !HasDouble(s) ==> r == s
  {
    if |s| < 2 then s
    else if s[0] == '/' && s[1] == '/' then Collapse(s[1..])
    else
      var rest := Collapse(s[1..]);
      assert ([s[0]] + rest)[1..] == rest;
      [s[0]] + rest
  }

  lemma {:induction false} PassKeepsCollapse(s: string)
    ensures Collapse(ReplacePass(s)) == Collapse(s)
  {
    if |s| < 2 {
    } else if s[0] == '/' && s[1] == '/' {
      PassKeepsCollapse(s[2..]);
      var tail := ReplacePass(s[2..]);
      assert ("/" + tail)[1..] == tail;
      assert s[1..][1..] == s[2..];
    } else {
      PassKeepsCollapse(s[1..]);
      var tail := ReplacePass(s[1..]);
      assert ([s[0]] + tail)[1..] == tail;
    }
  }

  function Slashes(n: nat): string { seq(n, _ => '/') }

  lemma PassOver(c: char, t: string)
    requires !(c == '/' && t != "" && t[0] == '/')
    ensures ReplacePass([c] + t) == [c] + ReplacePass(t)
  {
    assert ([c] + t)[1..] == t;
  }

  lemma PassTwo(t: string)
    ensures ReplacePass("//" + t) == "/" + ReplacePass(t)
  {
    assert ("//" + t)[2..] == t;
  }

  /** One pass halves every run of slashes, rounding up; PassOver says that it leaves the rest alone. */
  lemma {:induction false} PassHalvesRuns(n: nat, rest: string)
    requires rest == "" || rest[0] != '/'
    ensures ReplacePass(Slashes(n) + rest) == Slashes((n + 1) / 2) + ReplacePass(rest)
  {
    hide ReplacePass;
    var s := Slashes(n) + rest;
    if n == 0 {
      assert s == rest;
    } else if n == 1 {
      assert s == ['/'] + rest && Slashes(1) == ['/'];
      PassOver('/', rest);
    } else {
      var fewer := Slashes(n - 2) + rest;
      assert s == "//" + fewer;
      PassTwo(fewer);
      PassHalvesRuns(n - 2, rest);
      assert Slashes((n + 1) / 2) == "/" + Slashes((n - 1) / 2);
    }
  }

  /** NormalizeValue as the code runs it: repeat the replacement until nothing doubles. */
  method NormalizeValue(lt: LabelType, value: string) returns (r: string)
    ensures r == lt.Normalize(value)
  {
    r := TrimSpace(value);
    while HasDouble(r)
      invariant Collapse(r) == Collapse(TrimSpace(value))
      decreases |r|
    {
      PassKeepsCollapse(r);
      r := ReplacePass(r);
    }
    if !lt.Unknown? && lt.Prefix() <= r {
      r := r[|lt.Prefix()|..];
    }
    r := Trim(r, IsSlash);
  }

  lemma {:induction false} DoubleConcat(a: string, b: string)
    ensures HasDouble(a + b) <==>
      HasDouble(a) || HasDouble(b) || (a != "" && b != "" && a[|a| - 1] == '/' && b[0] == '/')
  {
    if a == "" {
      assert a + b == b;
    } else {
      assert (a + b)[1..] == a[1..] + b;
      DoubleConcat(a[1..], b);
    }
  }

  lemma TrimKeepsNoDouble(s: string, cut: char -> bool)
    requires !HasDouble(s)
    ensures !HasDouble(Trim(s, cut))
  {
    var before, after := TrimParts(s, cut);
    DoubleConcat(before + Trim(s, cut), after);
    DoubleConcat(before, Trim(s, cut));
  }

  lemma PrefixShape(lt: LabelType)
    requires !lt.Unknown?
    ensures var p := lt.Prefix(); |p| >= 3 && p[0] == '/' && p[|p| - 1] == '/' && !HasDouble(p)
    ensures GoodSegment(lt.Name())
  {
    NoSlashNoDouble(lt.Name());
    DoubleConcat("/", lt.Name());
    DoubleConcat("/" + lt.Name(), "/");
  }

  lemma {:induction false} NoSlashNoDouble(s: string)
    requires SlashFree(s)
    ensures !HasDouble(s)
  {
    if |s| >= 2 { NoSlashNoDouble(s[1..]); }
  }

  lemma NormalizeClean(lt: LabelType, q: string)
    requires !HasDouble(q) && Trimmed(q, IsSpace)
    ensures lt.Normalize(q) == Trim(StripPrefix(lt, q), IsSlash)
  {
    assert TrimSpace(q) == q && Collapse(q) == q;
  }

  function StripPrefix(lt: LabelType, s: string): string {
    if !lt.Unknown? && lt.Prefix() <= s then s[|lt.Prefix()|..] else s
  }

  lemma NormalizeShape(lt: LabelType, value: string)
    ensures !HasDouble(lt.Normalize(value)) && Trimmed(lt.Normalize(value), IsSlash)
    ensures |lt.Normalize(value)| <= |TrimSpace(value)|
  {
    var collapsed := Collapse(TrimSpace(value));
    var bare := StripPrefix(lt, collapsed);
    assert collapsed == collapsed[..|collapsed| - |bare|] + bare;
    DoubleConcat(collapsed[..|collapsed| - |bare|], bare);
    TrimKeepsNoDouble(bare, IsSlash);
  }

  /** A normalised value is a fixed point exactly when it carries no edge whitespace. */
  lemma NormalizeFixedPoint(lt: LabelType, value: string)
    ensures var r := lt.Normalize(value); lt.Normalize(r) == r <==> Trimmed(r, IsSpace)
  {
    var r := lt.Normalize(value);
    NormalizeShape(lt, value);
    NormalizeShape(lt, r);
    if Trimmed(r, IsSpace) {
      NormalizeClean(lt, r);
      assert StripPrefix(lt, r) == r;
    }
  }

  /** Canonical values have no slash or whitespace at either end and no doubled slash. */
  lemma CanonicalShape(lt: LabelType, v: string)
    requires lt.Normalize(v) == v
    ensures !HasDouble(v) && Trimmed(v, IsSlash) && Trimmed(v, IsSpace)
  {
    NormalizeShape(lt, v);
    NormalizeFixedPoint(lt, v);
  }

  lemma SlashEndedConcat(p: string, v: string)
    requires p != "" && p[0] == '/' && p[|p| - 1] == '/' && !HasDouble(p)
    requires !HasDouble(v) && Trimmed(v, IsSlash) && Trimmed(v, IsSpace)
    ensures !HasDouble(p + v) && Trimmed(p + v, IsSpace)
  {
    DoubleConcat(p, v);
  }

  /** The namespaced spelling of a canonical value names the same value. */
  lemma QualifiedSpelling(lt: LabelType, v: string)
    requires !lt.Unknown? && lt.Normalize(v) == v
    ensures lt.Normalize(lt.Prefix() + v) == v
    ensures lt.QueryTarget(lt.Prefix() + v) == lt.QueryTarget(v) == lt.LabelKey(v)
  {
    CanonicalShape(lt, v);
    PrefixShape(lt);
    SlashEndedConcat(lt.Prefix(), v);
    NormalizeClean(lt, lt.Prefix() + v);
  }

  /** A bare leading slash is dropped unless it turns the value into a namespaced one. */
  lemma LeadingSlashSpelling(lt: LabelType, v: string)
    requires !lt.Unknown? && lt.Normalize(v) == v
    ensures lt.Normalize("/" + v) == v <==> !(lt.Prefix() <= "/" + v)
  {
    CanonicalShape(lt, v);
    PrefixShape(lt);
    var q := "/" + v;
    SlashEndedConcat("/", v);
    NormalizeClean(lt, q);
    if !(lt.Prefix() <= q) {
      DropLeadingSlash(v);
    }
  }

  lemma DropLeadingSlash(v: string)
    requires Trimmed(v, IsSlash)
    ensures Trim("/" + v, IsSlash) == v
  {
    var q := "/" + v;
    assert q[1..] == v;
    assert Lead(q, IsSlash) == 1 + Lead(v, IsSlash);
  }

  /** "/ a" normalises to " a", and that to "a". */
  lemma SpaceBehindSlash()
    ensures Skill.Normalize("/ a") == " a" && Skill.Normalize(" a") == "a"
  {
    assert !HasDouble("/ a") && Trimmed("/ a", IsSpace);
    NormalizeClean(Skill, "/ a");
    DropLeadingSlash(" a");
    assert "/" + " a" == "/ a";
    assert " a"[1..] == "a" && Lead(" a", IsSpace) == 1 + Lead("a", IsSpace) && Tail("a", IsSpace) == 1;
    assert TrimSpace(" a") == "a";
    assert Collapse("a") == "a" && Trim("a", IsSlash) == "a";
  }

  /** Such as "skills/foo", which is kept, while "/skills/foo" means "foo". */
  lemma NamespaceLookalike(lt: LabelType, w: string)
    requires !lt.Unknown? && w != "" && SlashFree(w) && Trimmed(w, IsSpace)
    ensures lt.Normalize(lt.Name() + "/" + w) == lt.Name() + "/" + w
    ensures lt.Normalize("/" + (lt.Name() + "/" + w)) == w
  {
    hide LabelType.Normalize, HasDouble, LabelType.Name, IsSpace;
    var v := lt.Name() + "/" + w;
    PrefixShape(lt);
    NoSlashNoDouble(w);
    assert "/" + v == lt.Prefix() + w;
    DoubleConcat(lt.Prefix(), w);
    DoubleConcat("/", v);
    NameTrimmed(lt, w);
    NormalizeClean(lt, v);
    NormalizeClean(lt, w);
    assert StripPrefix(lt, w) == w;
    QualifiedSpelling(lt, w);
  }

  lemma NameTrimmed(lt: LabelType, w: string)
    requires !lt.Unknown? && w != "" && SlashFree(w) && Trimmed(w, IsSpace)
    ensures var v := lt.Name() + "/" + w; Trimmed(v, IsSpace) && Trimmed(v, IsSlash) && !(lt.Prefix() <= v)
    ensures Trimmed(w, IsSlash) && !(lt.Prefix() <= w)
  {
    var v := lt.Name() + "/" + w;
    assert v[0] == lt.Name()[0] && v[|v| - 1] == w[|w| - 1];
    assert lt.Prefix()[0] == '/' && v[0] != '/';
  }

  // ----- datastore keys -----

  function BuildKey(lbl: string, cid: string, peer: string): string {
    lbl + "/" + cid + "/" + peer
  }

  const MIN_KEY_PARTS := 5

  datatype ParsedKey = ParsedKey(lbl: string, cid: string, peer: string)

  /** ParseEnhancedLabelKey; None stands for its error. */
  function ParseKey(key: string): Option<ParsedKey> {
    if !("/" <= key) then None
    else
      var parts := Split(key);
      var n := |parts|;
      if n < MIN_KEY_PARTS then None
      else Some(ParsedKey("/" + Join(parts[1..n - 2], "/"), parts[n - 2], parts[n - 1]))
  }

  /** ExtractPeerIDFromKey; the empty string stands for a key that is too short. */
  function ExtractPeer(key: string): string {
    var parts := Split(key);
    if |parts| < MIN_KEY_PARTS then "" else parts[|parts| - 1]
  }

  /** A leading slash, a namespace and a value. */
  predicate Namespaced(lbl: string) {
    "/" <= lbl && |Split(lbl)| >= 3
  }

  lemma SplitKey(lbl: string, cid: string, peer: string)
    requires SlashFree(cid) && SlashFree(peer)
    ensures Split(BuildKey(lbl, cid, peer)) == Split(lbl) + [cid, peer]
  {
    SplitConcat(lbl + "/" + cid, peer);
    SplitConcat(lbl, cid);
    SplitParts(cid);
    SplitParts(peer);
  }

  /** A rooted path is its segments after the root, joined behind a slash. */
  lemma RootedJoin(s: string)
    requires "/" <= s
    ensures Split(s) == [""] + Split(s)[1..] && |Split(s)| >= 2
    ensures s == "/" + Join(Split(s)[1..], "/")
  {
    JoinSplit(s);
    JoinConcat([""], Split(s)[1..], "/");
  }

  /** Parsing inverts building, whatever the label's own segments look like. */
  lemma ParseBuild(lbl: string, cid: string, peer: string)
    requires Namespaced(lbl) && SlashFree(cid) && SlashFree(peer)
    ensures ParseKey(BuildKey(lbl, cid, peer)) == Some(ParsedKey(lbl, cid, peer))
    ensures ExtractPeer(BuildKey(lbl, cid, peer)) == peer
  {
    SplitKey(lbl, cid, peer);
    RootedJoin(lbl);
    var parts := Split(BuildKey(lbl, cid, peer));
    assert parts[1..|parts| - 2] == Split(lbl)[1..];
  }

  /** Building inverts parsing, on every key that parses. */
  lemma BuildParse(key: string)
    requires ParseKey(key).Some?
    ensures var p := ParseKey(key).value;
      && BuildKey(p.lbl, p.cid, p.peer) == key
      && Namespaced(p.lbl) && SlashFree(p.cid) && SlashFree(p.peer)
      && ExtractPeer(key) == p.peer
  {
    hide Split, Namespaced, SlashFree, Join;
    var parts, p := Split(key), ParseKey(key).value;
    var head := parts[..|parts| - 2];
    JoinSplit(key);
    assert parts == head + [p.cid, p.peer];
    JoinTwo(head, p.cid, p.peer);
    ParsedLabel(key);
    SplitParts(key);
    assert p.cid in parts && p.peer in parts;
  }

  lemma JoinTwo(head: seq<string>, a: string, b: string)
    requires head != []
    ensures Join(head + [a, b], "/") == Join(head, "/") + "/" + a + "/" + b
  {
    JoinConcat(head, [a, b], "/");
    assert [a, b][1..] == [b];
  }

  lemma ParsedLabel(key: string)
    requires ParseKey(key).Some?
    ensures var lbl := ParseKey(key).value.lbl; var parts := Split(key);
      lbl == Join(parts[..|parts| - 2], "/") && Namespaced(lbl)
  {
    var parts := Split(key);
    var head := parts[..|parts| - 2];
    RootedJoin(key);
    assert head == [""] + parts[1..|parts| - 2];
    JoinConcat([""], parts[1..|parts| - 2], "/");
    SplitParts(key);
    forall q | q in head ensures SlashFree(q) { assert q in parts; }
    SplitJoin(head);
  }

  lemma KeysInjective(l1: string, c1: string, p1: string, l2: string, c2: string, p2: string)
    requires Namespaced(l1) && SlashFree(c1) && SlashFree(p1)
    requires Namespaced(l2) && SlashFree(c2) && SlashFree(p2)
    ensures BuildKey(l1, c1, p1) == BuildKey(l2, c2, p2) <==> l1 == l2 && c1 == c2 && p1 == p2
  {
    ParseBuild(l1, c1, p1);
    ParseBuild(l2, c2, p2);
  }

  // ----- the datastore's own key cleaning -----

  predicate GoodSegment(s: string) {
    s != "" && s != "." && s != ".." && SlashFree(s)
  }

  /** A rooted path that path cleaning leaves alone. */
  predicate GoodPath(key: string) {
    var parts := Split(key);
    |parts| >= 2 && parts[0] == "" && forall i | 1 <= i < |parts| :: GoodSegment(parts[i])
  }

  function CleanSegments(parts: seq<string>, stack: seq<string>): (r: seq<string>)
    requires forall p | p in parts :: SlashFree(p)
    requires forall p | p in stack :: GoodSegment(p)
    ensures forall p | p in r :: GoodSegment(p)
    ensures (forall p | p in parts :: GoodSegment(p)) ==> r == stack + parts
  {
    if parts == [] then stack
    else
      assert parts[0] in parts && parts == [parts[0]] + parts[1..];
      if parts[0] == "" || parts[0] == "." then CleanSegments(parts[1..], stack)
      else if parts[0] == ".." then
        CleanSegments(parts[1..], if stack == [] then [] else stack[..|stack| - 1])
      else CleanSegments(parts[1..], stack + [parts[0]])
  }

  /** datastore.NewKey: the rooted path, cleaned. */
  function NewKey(s: string): string {
    SplitParts(s);
    "/" + Join(CleanSegments(Split(s), []), "/")
  }

  lemma NewKeyIdentity(s: string)
    ensures NewKey(s) == s <==> s == "/" || GoodPath(s)
  {
    SplitParts(s);
    var parts := Split(s);
    var clean := CleanSegments(parts, []);
    if GoodPath(s) {
      GoodPathIsRooted(s);
      RootedJoin(s);
      assert clean == CleanSegments(parts[1..], []);
      forall p | p in parts[1..] ensures GoodSegment(p) {
        var i :| 0 <= i < |parts[1..]| && parts[1..][i] == p;
        assert parts[i + 1] == p;
      }
    }
    if s == "/" {
      assert s[1..] == "";
      assert parts[1..] == [""];
    }
    if NewKey(s) == s && clean != [] {
      JoinConcat([""], clean, "/");
      SplitJoin([""] + clean);
    }
  }

  lemma NewKeyIdempotent(s: string)
    ensures NewKey(NewKey(s)) == NewKey(s)
  {
    SplitParts(s);
    var clean := CleanSegments(Split(s), []);
    if clean != [] {
      JoinConcat([""], clean, "/");
      SplitJoin([""] + clean);
      assert GoodPath(NewKey(s));
    }
    NewKeyIdentity(NewKey(s));
  }

  /** Cleaning, from the end of the path: empty and "." segments vanish, ".." takes the last one away. */
  lemma {:induction false} CleanLast(parts: seq<string>, stack: seq<string>, p: string)
    requires (forall q | q in parts :: SlashFree(q)) && (forall q | q in stack :: GoodSegment(q)) && SlashFree(p)
    ensures (forall q | q in parts + [p] :: SlashFree(q))
    ensures var clean := CleanSegments(parts, stack);
      CleanSegments(parts + [p], stack) ==
        if p == "" || p == "." then clean
        else if p == ".." then (if clean == [] then [] else clean[..|clean| - 1])
        else clean + [p]
  {
    hide SlashFree;
    if parts == [] {
      assert parts + [p] == [p] && [p][1..] == [];
    } else {
      assert (parts + [p])[1..] == parts[1..] + [p] && parts[0] in parts;
      if parts[0] == "" || parts[0] == "." {
        CleanLast(parts[1..], stack, p);
      } else if parts[0] == ".." {
        CleanLast(parts[1..], if stack == [] then [] else stack[..|stack| - 1], p);
      } else {
        assert GoodSegment(parts[0]) by { assert SlashFree(parts[0]); }
        CleanLast(parts[1..], stack + [parts[0]], p);
      }
    }
  }

  lemma Unslashed(p: string)
    requires GoodSegment(p)
    ensures SlashFree(p)
  {
  }

  /** However the datastore cleans a key, it ends in the peer. */
  lemma KeyEndsInPeer(lbl: string, cid: string, peer: string)
    requires GoodSegment(peer)
    ensures var parts := Split(NewKey(BuildKey(lbl, cid, peer))); |parts| >= 2 && parts[|parts| - 1] == peer
  {
    hide Split, CleanSegments, SlashFree;
    var front := lbl + "/" + cid;
    assert SlashFree(peer) by { Unslashed(peer); }
    SplitConcat(front, peer);
    SplitParts(peer);
    SplitParts(front);
    SplitParts(BuildKey(lbl, cid, peer));
    CleanLast(Split(front), [], peer);
    SplitRooted(CleanSegments(Split(front), []) + [peer]);
  }

  lemma SplitRooted(clean: seq<string>)
    requires clean != [] && forall p | p in clean :: GoodSegment(p)
    ensures Split("/" + Join(clean, "/")) == [""] + clean
  {
    hide Split;
    JoinConcat([""], clean, "/");
    assert Join([""], "/") == "";
    assert Join([""] + clean, "/") == "/" + Join(clean, "/");
    SplitJoin([""] + clean);
  }

  lemma GoodPathIsRooted(s: string)
    requires GoodPath(s)
    ensures "/" <= s
  {
    JoinSplit(s);
  }

  // ----- records and the labels they carry -----

  datatype Record = Record(cid: string, skills: seq<string>, domains: seq<string>,
                           modules: seq<string>, locators: seq<string>)

  function LabelsOfType(lt: LabelType, values: seq<string>): (r: seq<string>)
    ensures |r| == |values| && forall i | 0 <= i < |r| :: r[i] == lt.LabelKey(values[i])
  {
    seq(|values|, i requires 0 <= i < |values| => lt.LabelKey(values[i]))
  }

  /** GetLabelsFromRecord. */
  function RecordLabels(r: Record): seq<string> {
    LabelsOfType(Skill, r.skills) + LabelsOfType(Domain, r.domains)
    + LabelsOfType(Module, r.modules) + LabelsOfType(Locator, r.locators)
  }

  /** The values a record lists for one label type. */
  function ValuesOf(r: Record, lt: LabelType): seq<string> {
    match lt
    case Unknown => []
    case Skill => r.skills
    case Domain => r.domains
    case Module => r.modules
    case Locator => r.locators
  }

  /** Where the list has a value with this label. */
  function ListedAt(lt: LabelType, values: seq<string>, lbl: string): set<int> {
    set i | 0 <= i < |values| && lt.LabelKey(values[i]) == lbl
  }

  lemma TypeOccurrences(lt: LabelType, values: seq<string>, lbl: string)
    ensures Occurrences(LabelsOfType(lt, values), lbl) == |ListedAt(lt, values, lbl)|
  {
    hide LabelType.LabelKey, LabelsOfType;
    assert ListedAt(lt, values, lbl) == Positions(LabelsOfType(lt, values), lbl);
    OccurrencesArePositions(LabelsOfType(lt, values), lbl);
  }

  /** How often a record lists a label: once for each value that has it, of any type. */
  function Listings(r: Record, lbl: string): nat {
    |ListedAt(Skill, r.skills, lbl)| + |ListedAt(Domain, r.domains, lbl)|
    + |ListedAt(Module, r.modules, lbl)| + |ListedAt(Locator, r.locators, lbl)|
  }

  /** Extraction gives a label as often as the record lists it, and no other label. */
  lemma LabelsExactly(r: Record, lbl: string)
    ensures Occurrences(RecordLabels(r), lbl) == Listings(r, lbl)
  {
    hide LabelType.LabelKey, Occurrences, ListedAt;
    var a, b := LabelsOfType(Skill, r.skills), LabelsOfType(Domain, r.domains);
    var c, d := LabelsOfType(Module, r.modules), LabelsOfType(Locator, r.locators);
    OccurrencesConcat(a + b + c, d, lbl);
    OccurrencesConcat(a + b, c, lbl);
    OccurrencesConcat(a, b, lbl);
    TypeOccurrences(Skill, r.skills, lbl);
    TypeOccurrences(Domain, r.domains, lbl);
    TypeOccurrences(Module, r.modules, lbl);
    TypeOccurrences(Locator, r.locators, lbl);
  }

  lemma LabelListed(r: Record, lbl: string)
    ensures lbl in RecordLabels(r) <==> exists lt, v | v in ValuesOf(r, lt) :: lt.LabelKey(v) == lbl
  {
    hide LabelType.LabelKey, LabelsOfType;
    forall lt
      ensures lbl in LabelsOfType(lt, ValuesOf(r, lt)) <==> exists v | v in ValuesOf(r, lt) :: lt.LabelKey(v) == lbl
    {
      TypeListed(lt, ValuesOf(r, lt), lbl);
    }
    assert lbl in RecordLabels(r) <==>
      lbl in LabelsOfType(Skill, ValuesOf(r, Skill)) || lbl in LabelsOfType(Domain, ValuesOf(r, Domain))
      || lbl in LabelsOfType(Module, ValuesOf(r, Module)) || lbl in LabelsOfType(Locator, ValuesOf(r, Locator));
    if lt, v :| v in ValuesOf(r, lt) && lt.LabelKey(v) == lbl {
      assert lbl in LabelsOfType(lt, ValuesOf(r, lt));
    }
  }

  lemma TypeListed(lt: LabelType, values: seq<string>, lbl: string)
    ensures lbl in LabelsOfType(lt, values) <==> exists v | v in values :: lt.LabelKey(v) == lbl
  {
    hide LabelType.LabelKey;
    var ls := LabelsOfType(lt, values);
    if v :| v in values && lt.LabelKey(v) == lbl {
      var i :| 0 <= i < |values| && values[i] == v;
      assert ls[i] == lbl;
    }
    if lbl in ls {
      var i :| 0 <= i < |ls| && ls[i] == lbl;
      assert values[i] in values;
    }
  }

  /** Found by one of the four namespace queries. */
  predicate InNamespace(key: string) {
    || Skill.Prefix() <= key || Domain.Prefix() <= key || Module.Prefix() <= key || Locator.Prefix() <= key
  }

  /** A label whose key survives the datastore and the key parser unchanged. */
  predicate GoodLabel(lbl: string) {
    InNamespace(lbl) && GoodPath(lbl) && |Split(lbl)| >= 3
  }

  lemma {:induction false} EmptySegment(s: string, i: nat)
    requires !HasDouble(s) && i < |Split(s)| && Split(s)[i] == ""
    ensures (i == 0 && (s == "" || s[0] == '/')) || (i == |Split(s)| - 1 && s != "" && s[|s| - 1] == '/')
  {
    if s != "" && i > 0 {
      var t := s[1..];
      assert t == "" ==> Split(t) == [""];
      EmptySegment(t, if s[0] == '/' then i - 1 else i);
    }
  }

  lemma SplitPrefixed(lt: LabelType, value: string)
    requires !lt.Unknown?
    ensures Split(lt.Prefix() + value) == ["", lt.Name()] + Split(value)
  {
    hide Split, LabelType.Name;
    assert SlashFree(lt.Name()) by { PrefixShape(lt); }
    SplitNamed(lt.Name(), value);
  }

  lemma SplitNamed(name: string, value: string)
    requires SlashFree(name)
    ensures Split("/" + name + "/" + value) == ["", name] + Split(value)
  {
    hide Split;
    assert "/" + name + "/" + value == "" + "/" + (name + "/" + value);
    SplitParts("");
    SplitParts(name);
    SplitConcat("", name + "/" + value);
    SplitConcat(name, value);
  }

  /** Which extracted labels are good: the value survives and has no dot segments. */
  lemma GoodLabelKey(lt: LabelType, value: string)
    requires !lt.Unknown?
    ensures GoodLabel(lt.LabelKey(value)) <==>
      lt.Normalize(value) != "" && "." !in Split(lt.Normalize(value)) && ".." !in Split(lt.Normalize(value))
  {
    hide Split, LabelType.Normalize, LabelType.Prefix, LabelType.Name, HasDouble, GoodSegment;
    var v := lt.Normalize(value);
    NormalizeShape(lt, value);
    SplitPrefixed(lt, v);
    PrefixShape(lt);
    assert lt.Prefix() <= lt.LabelKey(value);
    GoodSegments(v);
    var parts, vs := Split(lt.Prefix() + v), Split(v);
    assert forall i | 0 <= i < |vs| :: parts[i + 2] == vs[i];
    assert GoodPath(lt.LabelKey(value)) <==> forall i | 0 <= i < |vs| :: GoodSegment(vs[i]) by {
      if GoodPath(lt.LabelKey(value)) {
        forall i | 0 <= i < |vs| ensures GoodSegment(vs[i]) { assert GoodSegment(parts[i + 2]); }
      }
    }
  }

  lemma GoodSegments(v: string)
    requires !HasDouble(v) && Trimmed(v, IsSlash)
    ensures (forall i | 0 <= i < |Split(v)| :: GoodSegment(Split(v)[i])) <==>
      v != "" && "." !in Split(v) && ".." !in Split(v)
  {
    SplitParts(v);
    if v != "" {
      forall i | 0 <= i < |Split(v)| ensures Split(v)[i] != "" {
        if Split(v)[i] == "" { EmptySegment(v, i); }
      }
    } else {
      assert !GoodSegment(Split(v)[0]);
    }
  }
}
