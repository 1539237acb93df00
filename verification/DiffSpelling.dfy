/** How a diff spells a path, and what the path scan reads from it. */
module DiffSpelling {
  import opened Wrappers
  import opened Text
  import opened ArtifactPaths
  import opened Claims
  import opened DiffPaths

  /** A path, possibly in quotes, behind the one leading component that applying a patch drops, or bare. */
  datatype Spelled = Spelled(path: Path, lead: Option<string>, quoted: bool)

  /** All that is written. */
  function Whole(s: Spelled): Path {
    if s.lead.Some? then [s.lead.value] + s.path else s.path
  }

  /** The path meant: as written once a diff counts no leading components, and without the first otherwise. */
  function Meant(s: Spelled, flat: bool): Path {
    if flat then Whole(s) else s.path
  }

  function PathText(p: Path): string {
    if p == [] then "" else Join(p, '/')
  }

  ghost predicate PathName(n: string) {
    n != "" && n != "." && n != ".." && Without(n, '/') && Without(n, '\n') && Without(n, '\t')
  }

  ghost predicate AllNames(p: Path) {
    p != [] && forall i | 0 <= i < |p| :: PathName(p[i])
  }

  ghost predicate PlainName(n: string) {
    PathName(n) && Without(n, '"') && Without(n, '\\')
  }

  ghost predicate NoSide(text: string) {
    forall i :: !SideAt(text, i)
  }

  /** Paths that need no escapes, with no white space at the ends and nothing that looks like a second side. */
  ghost predicate PlainPath(p: Path) {
    && p != [] && (forall i | 0 <= i < |p| :: PlainName(p[i]))
    && Trimmed(PathText(p)) && NoSide(PathText(p))
  }

  ghost predicate ValidLead(lead: string) {
    PlainName(lead) && forall i | 0 <= i < |lead| :: !IsSpace(lead[i])
  }

  /** Only a single name can be bare: of more, the first leads. */
  ghost predicate ValidSpelled(s: Spelled) {
    PlainPath(s.path) && if s.lead.Some? then ValidLead(s.lead.value) else |s.path| == 1
  }

  function Quote(text: string, quoted: bool): string {
    if quoted then ['"'] + text + ['"'] else text
  }

  function Spell(s: Spelled): string {
    Quote(PathText(Whole(s)), s.quoted)
  }

  /** What the scan reads: quotes stay in the names, and only an `a` or a `b` in front is dropped. */
  function ReadAs(s: Spelled): Path {
    if s.quoted then QuotedNames(Whole(s)) else if Usual(s.lead) then s.path else Whole(s)
  }

  predicate Usual(lead: Option<string>) { lead == Some("a") || lead == Some("b") }

  /** Spelled without quotes, and bare or behind a leading component that is dropped by the scan and the patch alike. */
  predicate Clear(s: Spelled, flat: bool) {
    !s.quoted && (s.lead.None? || (Usual(s.lead) <==> !flat))
  }

  function CloseQuote(p: Path): Path {
    if p == [] then [] else p[..|p| - 1] + [p[|p| - 1] + ['"']]
  }

  function QuotedNames(p: Path): Path {
    if p == [] then [] else CloseQuote([['"'] + p[0]] + p[1..])
  }

  lemma {:induction false} QuotesChange(p: Path)
    requires p != []
    ensures |QuotedNames(p)| == |p| && QuotedNames(p) != p
  {
    assert QuotedNames(p)[0] != p[0] by { assert |QuotedNames(p)[0]| > |p[0]|; }
  }

  /** A spelling is read as what it means exactly when it is clear. */
  lemma {:induction false} ReadRightIff(s: Spelled, flat: bool)
    requires s.path != []
    ensures ReadAs(s) == Meant(s, flat) <==> Clear(s, flat)
  {
    QuotesChange(Whole(s));
    assert s.lead.Some? ==> |Whole(s)| == |s.path| + 1;
  }

  // ----- Path text -----

  lemma {:induction false} PiecesOfNames(p: Path)
    requires forall i | 0 <= i < |p| :: PathName(p[i])
    ensures Pieces(p) == AsRaw(p)
  {
    if p != [] {
      PiecesOfNames(p[1..]);
      assert AsRaw(p) == [Normal(p[0])] + AsRaw(p[1..]);
    }
  }

  lemma {:induction false} PathTextStart(p: Path)
    requires p != [] && p[0] != ""
    ensures PathText(p) != "" && PathText(p)[0] == p[0][0]
  {
  }

  lemma {:induction false} ComponentsOfText(p: Path)
    requires AllNames(p)
    ensures Components(PathText(p)) == AsRaw(p)
  {
    SplitOfJoin(p, '/');
    PiecesOfNames(p);
    PathTextStart(p);
    assert p[0][0] != '/';
    assert [] + AsRaw(p) == AsRaw(p);
  }

  lemma {:induction false} PathTextNormalizes(p: Path)
    requires AllNames(p)
    ensures Normalize(Components(PathText(p))) == Ok(p)
  {
    ComponentsOfText(p);
    ResolveAsRaw(p);
  }

  lemma {:induction false} TextWithout(p: Path, c: char)
    requires p != [] && c != '/' && forall i | 0 <= i < |p| :: Without(p[i], c)
    ensures Without(PathText(p), c)
  {
    if |p| > 1 { TextWithout(p[1..], c); }
  }

  lemma {:induction false} LeadText(lead: string, p: Path)
    requires p != []
    ensures PathText([lead] + p) == lead + ['/'] + PathText(p)
  {
    assert ([lead] + p)[1..] == p;
  }

  /** Closing the quote behind the last name closes it behind the whole text. */
  lemma {:induction false} CloseQuoteText(p: Path)
    requires p != []
    ensures CloseQuote(p) != [] && PathText(CloseQuote(p)) == PathText(p) + ['"']
  {
    var q := CloseQuote(p);
    if |p| > 1 {
      CloseQuoteText(p[1..]);
      assert q[0] == p[0] && q[1..] == CloseQuote(p[1..]);
    }
  }

  lemma {:induction false} QuotedText(p: Path)
    requires p != []
    ensures PathText(QuotedNames(p)) == Quote(PathText(p), true)
  {
    var open := [['"'] + p[0]] + p[1..];
    CloseQuoteText(open);
    assert open[1..] == p[1..];
    assert PathText(open) == ['"'] + PathText(p);
  }

  lemma {:induction false} QuotedNamesAreNames(p: Path)
    requires p != [] && forall i | 0 <= i < |p| :: PlainName(p[i])
    ensures AllNames(QuotedNames(p))
  {
    var q, n := QuotedNames(p), |p| - 1;
    assert q[0][0] == '"' && q[n][|q[n]| - 1] == '"';
    if n == 0 {
      assert q == [['"'] + p[0] + ['"']];
    } else {
      assert q[0] == ['"'] + p[0] && q[n] == p[n] + ['"'];
    }
    forall i | 0 <= i < |q| ensures PathName(q[i]) { if 0 < i < n { assert q[i] == p[i]; } }
  }

  // ----- One spelled path -----

  lemma {:induction false} WholeIsPlain(s: Spelled)
    requires ValidSpelled(s)
    ensures AllNames(Whole(s)) && forall i | 0 <= i < |Whole(s)| :: PlainName(Whole(s)[i])
  {
  }

  lemma {:induction false} LedText(s: Spelled)
    requires ValidSpelled(s) && s.lead.Some?
    ensures var t, lead := PathText(Whole(s)), s.lead.value;
      && |t| > |lead| + 1 && t[|lead|] == '/' && t[..|lead|] == lead && t[|lead| + 1..] == PathText(s.path)
      && Trimmed(t)
  {
    var t, lead := PathText(Whole(s)), s.lead.value;
    LeadText(lead, s.path);
    PathTextStart(s.path);
    assert t[0] == lead[0] && t[|t| - 1] == PathText(s.path)[|PathText(s.path)| - 1];
  }

  lemma {:induction false} BareText(s: Spelled)
    requires ValidSpelled(s) && s.lead.None?
    ensures PathText(Whole(s)) == s.path[0] && Without(s.path[0], '/')
  {
    assert s.path == [s.path[0]];
  }

  lemma {:induction false} WholeEnds(s: Spelled)
    requires ValidSpelled(s)
    ensures var t := PathText(Whole(s)); t != "" && t[0] != '/' && t[0] != '"' && Trimmed(t)
  {
    WholeIsPlain(s);
    PathTextStart(Whole(s));
    assert PlainName(Whole(s)[0]);
    if s.lead.Some? { LedText(s); }
  }

  lemma {:induction false} SpellWithout(s: Spelled, c: char)
    requires ValidSpelled(s) && c in "\n\t"
    ensures Without(Spell(s), c)
  {
    WholeIsPlain(s);
    TextWithout(Whole(s), c);
  }

  /** The text of a spelled path survives trimming and is no null path. */
  lemma {:induction false} SpellShape(s: Spelled)
    requires ValidSpelled(s)
    ensures var t := Spell(s); t != "" && Trim(t) == t && t != "/dev/null" && t[|t| - 1] != '\r'
  {
    var t := Spell(s);
    WholeEnds(s);
    if s.quoted { assert t[0] == '"' && t[|t| - 1] == '"'; }
    TrimMeaning(t);
  }

  /** Which leading component a text starts with is told by its first two characters. */
  lemma {:induction false} LedStart(s: Spelled, lead: string)
    requires ValidSpelled(s) && !s.quoted && |lead| == 1 && lead != "/"
    ensures Starts(Spell(s), lead + ['/']) <==> s.lead == Some(lead)
  {
    var t := Spell(s);
    if s.lead.None? {
      BareText(s);
      assert (lead + ['/'])[1] == '/' && (|t| > 1 ==> t[1] != '/');
    } else {
      LedText(s);
      var own := s.lead.value;
      if |own| == 1 {
        assert own == [own[0]] && lead == [lead[0]];
        assert t[0] == own[0] && t[1] == '/' && (lead + ['/'])[0] == lead[0];
      } else {
        assert t[1] == own[1] && (lead + ['/'])[1] == '/';
      }
    }
  }

  lemma {:induction false} QuotedStart(s: Spelled, lead: string)
    requires s.quoted && lead != "" && lead[0] != '"'
    ensures !Starts(Spell(s), lead)
  {
    assert Spell(s)[0] == '"';
  }

  lemma {:induction false} StripUsual(s: Spelled)
    requires ValidSpelled(s)
    ensures StripSide(Spell(s)) == if !s.quoted && Usual(s.lead) then PathText(s.path) else Spell(s)
  {
    assert "a" + ['/'] == "a/" && "b" + ['/'] == "b/";
    if s.quoted {
      QuotedStart(s, "a/");
      QuotedStart(s, "b/");
    } else {
      LedStart(s, "a");
      LedStart(s, "b");
      if s.lead.Some? { LedText(s); }
    }
  }

  /** The scan's reading of a spelled path. */
  lemma {:induction false} SpelledReads(s: Spelled)
    requires ValidSpelled(s)
    ensures DiffPath(Spell(s)) == Ok(Some(ReadAs(s)))
  {
    SpellShape(s);
    StripUsual(s);
    WholeIsPlain(s);
    if s.quoted {
      QuotedText(Whole(s));
      QuotedNamesAreNames(Whole(s));
      PathTextNormalizes(QuotedNames(Whole(s)));
    } else if Usual(s.lead) {
      PathTextNormalizes(s.path);
    } else {
      PathTextNormalizes(Whole(s));
    }
  }

  lemma {:induction false} NullReadsBack(text: string)
    requires text == "/dev/null"
    ensures DiffPath(text) == Ok(None)
  {
    assert text[0] == '/' && text[|text| - 1] == 'l';
    TrimMeaning(text);
  }

  // ----- The two paths of a git line -----

  lemma {:induction false} NoSideBehind(front: string, text: string)
    requires Without(front, ' ') && NoSide(text)
    ensures NoSide(front + text)
  {
    forall i: nat ensures !SideAt(front + text, i) {
      if i >= |front| {
        assert !SideAt(text, i - |front|);
        assert forall j | 0 <= j < |text| :: (front + text)[|front| + j] == text[j];
      }
    }
  }

  lemma {:induction false} NoSideBeforeQuote(text: string)
    requires NoSide(text)
    ensures NoSide(text + ['"'])
  {
    forall i: nat ensures !SideAt(text + ['"'], i) { assert !SideAt(text, i); }
  }

  lemma {:induction false} WholeHasNoSide(s: Spelled)
    requires ValidSpelled(s)
    ensures NoSide(PathText(Whole(s)))
  {
    if s.lead.Some? {
      var front := s.lead.value + ['/'];
      LeadText(s.lead.value, s.path);
      assert Without(front, ' ');
      NoSideBehind(front, PathText(s.path));
    }
  }

  lemma {:induction false} SpellHasNoSide(s: Spelled)
    requires ValidSpelled(s)
    ensures NoSide(Spell(s))
  {
    WholeHasNoSide(s);
    if s.quoted {
      NoSideBehind(['"'], PathText(Whole(s)));
      NoSideBeforeQuote(['"'] + PathText(Whole(s)));
    }
  }

  /** Between two texts without a second side there is one exactly if the latter starts with it. */
  lemma {:induction false} SideBetween(a: string, b: string, i: nat)
    requires NoSide(a) && NoSide(b)
    ensures SideAt(a + [' '] + b, i) <==> i == |a| && Starts(b, "b/")
  {
    var rest := a + [' '] + b;
    assert forall j | 0 <= j < |a| :: rest[j] == a[j];
    assert forall j | 0 <= j < |b| :: rest[|a| + 1 + j] == b[j];
    if i < |a| {
      assert !SideAt(a, i);
    } else if i > |a| {
      assert !SideAt(b, i - |a| - 1);
    } else if |b| >= 2 {
      assert Starts(b, "b/") <==> b[0] == 'b' && b[1] == '/';
    }
  }

  /** Only an unquoted new name behind `b/` lets the scan tell the two names apart. */
  predicate Splits(new_: Spelled) { !new_.quoted && new_.lead == Some("b") }

  lemma {:induction false} StartsWithSide(s: Spelled)
    requires ValidSpelled(s)
    ensures Starts(Spell(s), "b/") <==> Splits(s)
  {
    assert "b" + ['/'] == "b/";
    if s.quoted { QuotedStart(s, "b/"); } else { LedStart(s, "b"); }
  }

  lemma {:induction false} FirstSide(a: string, b: string)
    requires NoSide(a) && NoSide(b)
    ensures FindSide(a + [' '] + b, 0) == if Starts(b, "b/") then Some(|a|) else None
  {
    var rest := a + [' '] + b;
    var found := FindSide(rest, 0);
    SideBetween(a, b, |a|);
    if found.Some? { SideBetween(a, b, found.value); }
  }

  lemma {:induction false} GitSplits(a: string, b: string)
    requires NoSide(a) && NoSide(b)
    ensures GitPaths(a + [' '] + b) ==
            if Starts(b, "b/") then Both(ToList(DiffPath(a)), ToList(DiffPath(b))) else Ok([])
  {
    var rest := a + [' '] + b;
    FirstSide(a, b);
    assert rest[..|a|] == a && rest[|a| + 1..] == b;
  }

  /** Either both paths of a git line are read, or neither is. */
  lemma {:induction false} GitNamesRead(old_: Spelled, new_: Spelled)
    requires ValidSpelled(old_) && ValidSpelled(new_)
    ensures GitPaths(Spell(old_) + [' '] + Spell(new_)) ==
            Ok(if Splits(new_) then [ReadAs(old_), ReadAs(new_)] else [])
  {
    SpellHasNoSide(old_);
    SpellHasNoSide(new_);
    StartsWithSide(new_);
    GitSplits(Spell(old_), Spell(new_));
    SpelledReads(old_);
    SpelledReads(new_);
    assert [ReadAs(old_)] + [ReadAs(new_)] == [ReadAs(old_), ReadAs(new_)];
  }

  // ----- Header lines -----

  /** One side of a header pair; no path stands for the null device. */
  function SideText(side: Option<Spelled>): string {
    if side.None? then "/dev/null" else Spell(side.value)
  }

  ghost predicate ValidSide(side: Option<Spelled>) {
    side.Some? ==> ValidSpelled(side.value)
  }

  function SideReads(side: Option<Spelled>): seq<Path> {
    if side.None? then [] else [ReadAs(side.value)]
  }

  lemma {:induction false} HeaderReads(front: string, side: Option<Spelled>)
    requires |front| == 4 && ValidSide(side)
    ensures HeaderPath(front + SideText(side)) == Ok(SideReads(side))
  {
    var text := SideText(side);
    assert (front + text)[4..] == text;
    if side.None? {
      NullReadsBack(text);
    } else {
      SpellWithout(side.value, '\t');
      SpelledReads(side.value);
    }
    SplitPlain(text, '\t');
  }

  lemma {:induction false} SideShape(side: Option<Spelled>)
    requires ValidSide(side)
    ensures var t := SideText(side); t != "" && t[|t| - 1] != '\r' && Without(t, '\n')
  {
    if side.Some? {
      SpellShape(side.value);
      SpellWithout(side.value, '\n');
    }
  }
}
