/**
 The text of a diff tells its items apart, as applying the patch does: the range in front of a
 hunk says how many lines belong to it.
 */
module DiffReading {
  import opened Wrappers
  import opened Text
  import opened Sequences
  import opened ArtifactPaths
  import opened DiffPaths
  import opened DiffSpelling
  import opened DiffPrinter

  // ----- Hunks -----

  function DigitsIn(s: string): (n: nat)
    ensures n <= |s| && Digits(s[..n])
  {
    if s == "" || !IsDigit(s[0]) then 0 else 1 + DigitsIn(s[1..])
  }

  /** The number of lines of one side, which is one where only the first line is given, and what follows it. */
  function CountOf(s: string): Option<(nat, string)> {
    var k := DigitsIn(s);
    if k == 0 then None
    else if k < |s| && s[k] == ',' then
      var rest := s[k + 1..];
      var n := DigitsIn(rest);
      if n == 0 then None else Some((DecimalValue(rest[..n]), rest[n..]))
    else Some((1, s[k..]))
  }

  /** How many old and new lines the range of a hunk announces, if it is one. */
  function Counts(range: string): Option<(nat, nat)> {
    if !Starts(range, " -") then None
    else
      match CountOf(range[2..])
      case None => None
      case Some((old_, rest)) =>
        if !Starts(rest, " +") then None
        else
          match CountOf(rest[2..])
          case None => None
          case Some((new_, end)) => if Starts(end, " @@") then Some((old_, new_)) else None
  }

  predicate HunkHeader(line: string) {
    Starts(line, HUNK) && Counts(line[|HUNK|..]).Some?
  }

  function Less(n: nat, used: bool): nat { if used && n > 0 then n - 1 else n }

  /** How many of the lines belong to a hunk with so many old and new lines; a note on the last of them does as well. */
  function BodyLength(lines: seq<string>, old_: nat, new_: nat): nat {
    if lines == [] then 0
    else if old_ == 0 && new_ == 0 then if Starts(lines[0], "\\") then 1 else 0
    else
      var l := lines[0];
      1 + BodyLength(lines[1..], Less(old_, l == "" || l[0] in " -"), Less(new_, l == "" || l[0] in " +"))
  }

  /** Each hunk ends where its range says, and what looks like the start of a hunk is one. */
  ghost predicate Ends(item: Item, rest: seq<string>) {
    match item
    case Hunk(range, body) =>
      && Counts(range).Some?
      && BodyLength(body + rest, Counts(range).value.0, Counts(range).value.1) == |body|
    case Other(text) => !HunkHeader(text)
    case _ => true
  }

  ghost predicate Counted(items: seq<Item>) {
    forall i | 0 <= i < |items| :: Ends(items[i], AllLines(items[i + 1..]))
  }

  lemma {:induction false} CountedTail(items: seq<Item>)
    requires items != [] && Counted(items)
    ensures Ends(items[0], AllLines(items[1..])) && Counted(items[1..])
  {
    var tail := items[1..];
    forall i | 0 <= i < |tail| ensures Ends(tail[i], AllLines(tail[i + 1..])) {
      assert Ends(items[i + 1], AllLines(items[i + 2..]));
      assert tail[i + 1..] == items[i + 2..];
    }
  }

  // ----- What one line tells -----

  lemma {:induction false} SameBehind(front: string, x: string, y: string)
    requires front + x == front + y
    ensures x == y
  {
    assert (front + x)[|front|..] == x && (front + y)[|front|..] == y;
  }

  lemma {:induction false} TextTells(p: Path, q: Path)
    requires AllNames(p) && AllNames(q) && PathText(p) == PathText(q)
    ensures p == q
  {
    SplitOfJoin(p, '/');
    SplitOfJoin(q, '/');
  }

  lemma {:induction false} QuoteTells(x: string, a: bool, y: string, b: bool)
    requires x != "" && y != "" && x[0] != '"' && y[0] != '"' && Quote(x, a) == Quote(y, b)
    ensures x == y && a == b
  {
    assert Quote(x, a)[0] == (if a then '"' else x[0]) && Quote(y, b)[0] == (if b then '"' else y[0]);
    if a {
      assert Quote(x, a)[1..|x| + 1] == x && Quote(y, b)[1..|y| + 1] == y;
    }
  }

  /** A spelling is told by its text. */
  lemma {:induction false} SpellTells(s: Spelled, t: Spelled)
    requires ValidSpelled(s) && ValidSpelled(t) && Spell(s) == Spell(t)
    ensures s == t
  {
    WholeEnds(s);
    WholeEnds(t);
    QuoteTells(PathText(Whole(s)), s.quoted, PathText(Whole(t)), t.quoted);
    WholeIsPlain(s);
    WholeIsPlain(t);
    TextTells(Whole(s), Whole(t));
    assert s.lead.Some? ==> Whole(s)[1..] == s.path && Whole(s)[0] == s.lead.value;
    assert t.lead.Some? ==> Whole(t)[1..] == t.path && Whole(t)[0] == t.lead.value;
  }

  lemma {:induction false} SideTells(a: Option<Spelled>, b: Option<Spelled>)
    requires ValidSide(a) && ValidSide(b) && SideText(a) == SideText(b)
    ensures a == b
  {
    if a.Some? { SpellShape(a.value); }
    if b.Some? { SpellShape(b.value); }
    if a.Some? && b.Some? { SpellTells(a.value, b.value); }
  }

  lemma {:induction false} SideSplits(a: string, b: string, a': string, b': string)
    requires NoSide(a) && NoSide(b) && NoSide(a') && NoSide(b') && Starts(b, "b/")
    requires a + [' '] + b == a' + [' '] + b'
    ensures a == a' && b == b'
  {
    SideBetween(a, b, |a|);
    SideBetween(a', b', |a|);
    assert (a + [' '] + b)[..|a|] == a && (a' + [' '] + b')[..|a|] == a';
    SameBehind(a + [' '], b, b');
  }

  /** The two names of a git line that the scan can split are told by its text. */
  lemma {:induction false} SplitTells(o: Spelled, n: Spelled, o': Spelled, n': Spelled)
    requires ValidSpelled(o) && ValidSpelled(n) && ValidSpelled(o') && ValidSpelled(n') && Splits(n)
    requires Spell(o) + [' '] + Spell(n) == Spell(o') + [' '] + Spell(n')
    ensures o == o' && n == n'
  {
    SpellHasNoSide(o);
    SpellHasNoSide(n);
    SpellHasNoSide(o');
    SpellHasNoSide(n');
    StartsWithSide(n);
    SideSplits(Spell(o), Spell(n), Spell(o'), Spell(n'));
    SpellTells(o, o');
    SpellTells(n, n');
  }

  lemma {:induction false} PlainPathTells(p: Path, a: bool, q: Path, b: bool)
    requires PlainPath(p) && PlainPath(q) && Quote(PathText(p), a) == Quote(PathText(q), b)
    ensures p == q && a == b
  {
    PathTextStart(p);
    PathTextStart(q);
    assert PlainName(p[0]) && PlainName(q[0]);
    QuoteTells(PathText(p), a, PathText(q), b);
    TextTells(p, q);
  }

  lemma {:induction false} KindTells(line: string, k: string, k': string)
    requires k in MOVES && k' in MOVES && Starts(line, k) && Starts(line, k')
    ensures k == k'
  {
    assert line[0] == k[0] == k'[0];
    if k[0] == 'r' { assert line[7] == k[7] == k'[7]; } else { assert line[5] == k[5] == k'[5]; }
  }

  // ----- What the first line of an item tells -----

  datatype LineKind = GitLine | OldLine | NewLine | MoveLine | HunkLine | OtherLine

  ghost function KindOf(line: string): LineKind {
    if Starts(line, GIT) then GitLine
    else if Starts(line, OLD) then OldLine
    else if Starts(line, NEW) then NewLine
    else if exists k | k in MOVES :: Starts(line, k) then MoveLine
    else if HunkHeader(line) then HunkLine
    else OtherLine
  }

  function KindOfItem(item: Item): LineKind {
    match item
    case Git(_, _) => GitLine
    case Pair(_, _) => OldLine
    case Lone(head, _) => if head == OLD then OldLine else NewLine
    case Move(_, _, _) => MoveLine
    case Hunk(_, _) => HunkLine
    case Other(_) => OtherLine
  }

  lemma {:induction false} StartStays(line: string, front: string)
    requires front != "" && front[|front| - 1] != '\r'
    ensures Starts(line, front) ==> Starts(TrimCr(line), front)
  {
  }

  lemma {:induction false} QuietKind(text: string)
    requires QuietLine(text) && !HunkHeader(text)
    ensures KindOf(text) == OtherLine
  {
    StartStays(text, GIT);
    StartStays(text, OLD);
    StartStays(text, NEW);
    forall k | k in MOVES ensures !Starts(text, k) { StartStays(text, k); }
  }

  lemma {:induction false} FrontTells(front: string, text: string)
    ensures Starts(front + text, front) && (front + text)[|front|..] == text
    ensures front != "" ==> (front + text)[0] == front[0]
  {
  }

  /** Only rename and copy headers start with their letters. */
  lemma {:induction false} NoMove(line: string)
    requires line != "" && line[0] != 'r' && line[0] != 'c'
    ensures forall k | k in MOVES :: !Starts(line, k)
  {
  }

  lemma {:induction false} HunkKind(range: string)
    requires Counts(range).Some?
    ensures KindOf(HUNK + range) == HunkLine
  {
    FrontTells(HUNK, range);
    FirstTells(HUNK + range, '@');
    NoMove(HUNK + range);
  }

  lemma {:induction false} MoveKind(kind: string, text: string)
    requires kind in MOVES
    ensures KindOf(kind + text) == MoveLine
  {
    FrontTells(kind, text);
    FirstTells(kind + text, kind[0]);
  }

  lemma {:induction false} SideKind(head: string, text: string)
    requires head == OLD || head == NEW
    ensures KindOf(head + text) == if head == OLD then OldLine else NewLine
  {
    FrontTells(head, text);
    FirstTells(head + text, head[0]);
  }

  /** What sort of item stands first is told by its first line. */
  lemma {:induction false} FirstLineTells(item: Item, rest: seq<string>)
    requires ValidItem(item) && Ends(item, rest)
    ensures KindOf(ItemLines(item)[0]) == KindOfItem(item)
  {
    match item
    case Git(old_, new_) => FrontTells(GIT, Spell(old_) + [' '] + Spell(new_));
    case Pair(before, _) => SideKind(OLD, SideText(before));
    case Lone(head, side) => SideKind(head, SideText(side));
    case Move(kind, path, quoted) => MoveKind(kind, Quote(PathText(path), quoted));
    case Hunk(range, _) => HunkKind(range);
    case Other(text) => QuietKind(text);
  }

  // ----- What the lines tell -----

  /** The same item, or two ways to split a git line that has no ` b/`. */
  ghost predicate Same(a: Item, b: Item) {
    a == b || (a.Git? && b.Git? && ItemLines(a) == ItemLines(b) && !Splits(a.new_) && !Splits(b.new_))
  }

  /** A lone old name is not followed by a new one. */
  ghost predicate Alone(item: Item, rest: seq<string>) {
    item.Lone? && item.head == OLD && rest != [] ==> !Starts(TrimCr(rest[0]), NEW)
  }

  lemma {:induction false} OneLineEach(x: string, r: seq<string>, y: string, s: seq<string>)
    requires [x] + r == [y] + s
    ensures x == y && r == s
  {
    assert ([x] + r)[0] == x && ([y] + s)[0] == y && ([x] + r)[1..] == r && ([y] + s)[1..] == s;
  }

  lemma {:induction false} GitTells(a: Item, r: seq<string>, b: Item, s: seq<string>)
    requires ValidItem(a) && ValidItem(b) && a.Git? && b.Git? && ItemLines(a) + r == ItemLines(b) + s
    ensures Same(a, b) && r == s
  {
    var x, y := Spell(a.old_) + [' '] + Spell(a.new_), Spell(b.old_) + [' '] + Spell(b.new_);
    OneLineEach(GIT + x, r, GIT + y, s);
    SameBehind(GIT, x, y);
    if Splits(a.new_) {
      SplitTells(a.old_, a.new_, b.old_, b.new_);
    } else if Splits(b.new_) {
      SplitTells(b.old_, b.new_, a.old_, a.new_);
    }
  }

  lemma {:induction false} SideLineTells(head: string, a: Option<Spelled>, r: seq<string>, b: Option<Spelled>,
      s: seq<string>)
    requires ValidSide(a) && ValidSide(b) && [head + SideText(a)] + r == [head + SideText(b)] + s
    ensures a == b && r == s
  {
    OneLineEach(head + SideText(a), r, head + SideText(b), s);
    SameBehind(head, SideText(a), SideText(b));
    SideTells(a, b);
  }

  lemma {:induction false} PairTells(a: Item, r: seq<string>, b: Item, s: seq<string>)
    requires ValidItem(a) && ValidItem(b) && a.Pair? && b.Pair? && ItemLines(a) + r == ItemLines(b) + s
    ensures a == b && r == s
  {
    TwoFirst(OLD + SideText(a.before), NEW + SideText(a.after), r);
    TwoFirst(OLD + SideText(b.before), NEW + SideText(b.after), s);
    SideLineTells(OLD, a.before, [NEW + SideText(a.after)] + r, b.before, [NEW + SideText(b.after)] + s);
    SideLineTells(NEW, a.after, r, b.after, s);
  }

  /** The lines of a pair are not those of a lone old name and what may follow it. */
  lemma {:induction false} PairIsNotLone(a: Item, r: seq<string>, b: Item, s: seq<string>)
    requires ValidItem(a) && a.Pair? && b.Lone? && b.head == OLD && Alone(b, s)
    ensures ItemLines(a) + r != ItemLines(b) + s
  {
    var line := NEW + SideText(a.after);
    FrontTells(NEW, SideText(a.after));
    StartStays(line, NEW);
    var l, m := ItemLines(a) + r, ItemLines(b) + s;
    assert l[1] == line;
    if s != [] { assert m[1] == s[0]; }
  }

  lemma {:induction false} LoneTells(a: Item, r: seq<string>, b: Item, s: seq<string>)
    requires ValidItem(a) && ValidItem(b) && a.Lone? && b.Lone? && a.head == b.head
    requires ItemLines(a) + r == ItemLines(b) + s
    ensures a == b && r == s
  {
    SideLineTells(a.head, a.side, r, b.side, s);
  }

  lemma {:induction false} MoveTells(a: Item, r: seq<string>, b: Item, s: seq<string>)
    requires ValidItem(a) && ValidItem(b) && a.Move? && b.Move? && ItemLines(a) + r == ItemLines(b) + s
    ensures a == b && r == s
  {
    var x, y := Quote(PathText(a.path), a.quoted), Quote(PathText(b.path), b.quoted);
    OneLineEach(a.kind + x, r, b.kind + y, s);
    FrontTells(a.kind, x);
    FrontTells(b.kind, y);
    KindTells(a.kind + x, a.kind, b.kind);
    SameBehind(a.kind, x, y);
    PlainPathTells(a.path, a.quoted, b.path, b.quoted);
  }

  lemma {:induction false} SameSplit(a: seq<string>, r: seq<string>, b: seq<string>, s: seq<string>)
    requires a + r == b + s && |a| == |b|
    ensures a == b && r == s
  {
    assert (a + r)[..|a|] == a && (b + s)[..|b|] == b && (a + r)[|a|..] == r && (b + s)[|b|..] == s;
  }

  lemma {:induction false} HunkLines(a: Item, r: seq<string>)
    requires a.Hunk?
    ensures ItemLines(a) + r == [HUNK + a.range] + (a.body + r)
  {
  }

  lemma {:induction false} HunkTells(a: Item, r: seq<string>, b: Item, s: seq<string>)
    requires a.Hunk? && b.Hunk? && Ends(a, r) && Ends(b, s) && ItemLines(a) + r == ItemLines(b) + s
    ensures a == b && r == s
  {
    HunkLines(a, r);
    HunkLines(b, s);
    OneLineEach(HUNK + a.range, a.body + r, HUNK + b.range, b.body + s);
    SameBehind(HUNK, a.range, b.range);
    SameSplit(a.body, r, b.body, s);
  }

  lemma {:induction false} ItemTells(a: Item, r: seq<string>, b: Item, s: seq<string>)
    requires ValidItem(a) && ValidItem(b) && ItemLines(a) + r == ItemLines(b) + s
    requires Ends(a, r) && Ends(b, s) && Alone(a, r) && Alone(b, s)
    ensures Same(a, b) && r == s
  {
    FirstLineTells(a, r);
    FirstLineTells(b, s);
    assert (ItemLines(a) + r)[0] == ItemLines(a)[0] && (ItemLines(b) + s)[0] == ItemLines(b)[0];
    assert KindOfItem(a) == KindOfItem(b);
    match a
    case Git(_, _) => GitTells(a, r, b, s);
    case Pair(_, _) => if b.Pair? { PairTells(a, r, b, s); } else { PairIsNotLone(a, r, b, s); }
    case Lone(_, _) => if b.Pair? { PairIsNotLone(b, s, a, r); } else { LoneTells(a, r, b, s); }
    case Move(_, _, _) => MoveTells(a, r, b, s);
    case Hunk(_, _) => HunkTells(a, r, b, s);
    case Other(x) => OneLineEach(x, r, b.text, s);
  }

  lemma {:induction false} LinesTell(a: seq<Item>, b: seq<Item>)
    requires ValidDiff(a) && ValidDiff(b) && Counted(a) && Counted(b) && AllLines(a) == AllLines(b)
    ensures |a| == |b| && forall i | 0 <= i < |a| :: Same(a[i], b[i])
  {
    if a != [] && b != [] {
      TailIsValid(a);
      TailIsValid(b);
      CountedTail(a);
      CountedTail(b);
      ItemTells(a[0], AllLines(a[1..]), b[0], AllLines(b[1..]));
      LinesTell(a[1..], b[1..]);
      forall i | 0 <= i < |a| ensures Same(a[i], b[i]) { if i > 0 { assert Same(a[1..][i - 1], b[1..][i - 1]); } }
    }
  }

  /** The items whose text this is. */
  ghost predicate Reading(text: string, items: seq<Item>) {
    ValidDiff(items) && Counted(items) && Print(items) == text
  }

  /** The text of a diff tells its items, but for git lines without ` b/`, whose two names it may not tell apart. */
  lemma {:induction false} TextTellsItems(text: string, a: seq<Item>, b: seq<Item>)
    requires Reading(text, a) && Reading(text, b)
    ensures |a| == |b| && forall i | 0 <= i < |a| :: Same(a[i], b[i])
  {
    AllNoNewlines(a);
    AllNoNewlines(b);
    SplitUnlines(AllLines(a));
    SplitUnlines(AllLines(b));
    assert (AllLines(a) + [""])[..|AllLines(a)|] == AllLines(a) && (AllLines(b) + [""])[..|AllLines(b)|] == AllLines(b);
    LinesTell(a, b);
  }

  /** So where every git line splits, the text has only these items. */
  lemma {:induction false} OneReading(text: string, a: seq<Item>, b: seq<Item>)
    requires Reading(text, a) && Reading(text, b) && forall i | 0 <= i < |a| :: a[i].Git? ==> Splits(a[i].new_)
    ensures a == b
  {
    TextTellsItems(text, a, b);
    forall i | 0 <= i < |a| ensures a[i] == b[i] { assert Same(a[i], b[i]); }
  }

  /** The text names a path: some reading of it does. */
  ghost predicate Names(text: string, p: Path) {
    exists items :: Reading(text, items) && NamedIn(items, p)
  }

  /** A text gives up all the paths it names exactly when no reading has one overlooked that is not read elsewhere. */
  lemma {:induction false} TextFoundIff(text: string, items: seq<Item>)
    requires Reading(text, items)
    ensures var found := Scan(Lines(text), false);
      found.Ok? && ((forall p | Names(text, p) :: p in found.value) <==>
        forall other, i: nat, m | Reading(text, other) && Mentioned(other, i, m) && Overlooked(m) ::
          ReadIn(items, m.path))
  {
    DiffRoundTrip(items);
    forall other | Reading(text, other) ensures forall p :: ReadIn(other, p) <==> ReadIn(items, p) {
      DiffRoundTrip(other);
    }
    forall other, i: nat, m | Reading(text, other) && Mentioned(other, i, m)
      ensures Names(text, m.path) && (Overlooked(m) || ReadIn(items, m.path))
    {
      NamedAt(other, i, m);
      if !Overlooked(m) { assert ReadIn(other, m.path); }
    }
  }

  // ----- What the text does not tell -----

  const LEFT := Git(Spelled(["q"], Some("p"), false), Spelled(["s t", "u"], Some("r"), false))

  const RIGHT := Git(Spelled(["q r", "s"], Some("p"), false), Spelled(["u"], Some("t"), false))

  lemma {:induction false} TextOfTwo(a: string, b: string)
    ensures PathText([a]) == a && PathText([a, b]) == a + ['/'] + b
  {
    LeadText(a, [b]);
    assert [a] + [b] == [a, b];
  }

  lemma {:induction false} ShortIsValid(p: Path, lead: string)
    requires forall i | 0 <= i < |p| :: PlainName(p[i])
    requires p != [] && Trimmed(PathText(p)) && Without(PathText(p), 'b')
    requires lead in ["p", "r", "t"]
    ensures ValidSpelled(Spelled(p, Some(lead), false))
  {
    assert NoSide(PathText(p));
    assert PlainName(lead) && !IsSpace(lead[0]);
  }

  lemma {:induction false} ShortNames()
    ensures PlainName("q") && PlainName("u") && PlainName("s") && PlainName("s t") && PlainName("q r")
  {
  }

  lemma {:induction false} LeftIsValid()
    ensures ValidItem(LEFT)
  {
    ShortNames();
    TextOfTwo("q", "");
    TextOfTwo("s t", "u");
    ShortIsValid(["q"], "p");
    ShortIsValid(["s t", "u"], "r");
  }

  lemma {:induction false} RightIsValid()
    ensures ValidItem(RIGHT)
  {
    ShortNames();
    TextOfTwo("q r", "s");
    TextOfTwo("u", "");
    ShortIsValid(["q r", "s"], "p");
    ShortIsValid(["u"], "t");
  }

  lemma {:induction false} Literals()
    ensures ("p" + ['/'] + "q") + [' '] + ("r" + ['/'] + ("s t" + ['/'] + "u")) == "p/q r/s t/u"
    ensures ("p" + ['/'] + ("q r" + ['/'] + "s")) + [' '] + ("t" + ['/'] + "u") == "p/q r/s t/u"
  {
  }

  lemma {:induction false} LeftText()
    ensures ItemLines(LEFT) == [GIT + "p/q r/s t/u"]
  {
    LeadText("p", ["q"]);
    LeadText("r", ["s t", "u"]);
    TextOfTwo("q", "");
    TextOfTwo("s t", "u");
    Literals();
  }

  lemma {:induction false} RightText()
    ensures ItemLines(RIGHT) == [GIT + "p/q r/s t/u"]
  {
    LeadText("p", ["q r", "s"]);
    LeadText("t", ["u"]);
    TextOfTwo("q r", "s");
    TextOfTwo("u", "");
    Literals();
  }

  lemma {:induction false} OneGitLineReads(item: Item)
    requires ValidItem(item) && item.Git?
    ensures Reading(Unlines(ItemLines(item)), [item]) && Names(Unlines(ItemLines(item)), item.old_.path)
  {
    assert AllLines([item][1..]) == [] && ItemLines(item) + [] == ItemLines(item);
    OneIsNotFlat(item);
    NamedAt([item], 0, ReadIf(item.old_, false, Splits(item.new_)));
  }

  /** A git line with blanks in its names and no ` b/` can have two readings, which name different paths. */
  lemma {:induction false} UnsplitLineIsAmbiguous()
    ensures var text := Unlines([GIT + "p/q r/s t/u"]);
      && Reading(text, [LEFT]) && Reading(text, [RIGHT]) && LEFT != RIGHT
      && Names(text, ["q"]) && Names(text, ["q r", "s"])
  {
    LeftIsValid();
    RightIsValid();
    LeftText();
    RightText();
    OneGitLineReads(LEFT);
    OneGitLineReads(RIGHT);
  }
}
