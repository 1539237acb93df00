/**
 Unified diffs as a list of their items, printed to text, and exactly which of the
 paths they name the path scan finds.

 A path is named where applying the patch takes a file name from: a git line, a
 header line, or a rename or copy header.
 */
module DiffPrinter {
  import opened Wrappers
  import opened Text
  import opened Sequences
  import opened ArtifactPaths
  import opened Claims
  import opened DiffPaths
  import opened DiffSpelling

  /**
   A git line; a header pair, with no path for the null device; one header line
   without the other; a rename or copy header; a hunk; and anything else.
   */
  datatype Item =
    | Git(old_: Spelled, new_: Spelled)
    | Pair(before: Option<Spelled>, after: Option<Spelled>)
    | Lone(head: string, side: Option<Spelled>)
    | Move(kind: string, path: Path, quoted: bool)
    | Hunk(range: string, body: seq<string>)
    | Other(text: string)

  const MOVES := ["rename from ", "rename to ", "rename old ", "rename new ", "copy from ", "copy to "]

  /** Body lines are empty or start with a blank, plus, minus or backslash and may say anything after that. */
  ghost predicate BodyLine(l: string) {
    (l == "" || l[0] in " +-\\") && Without(l, '\n')
  }

  /** A line that names no file. It may look like the start of a hunk. */
  ghost predicate QuietLine(l: string) {
    && Without(l, '\n') && !Starts(TrimCr(l), GIT) && !Starts(TrimCr(l), OLD) && !Starts(TrimCr(l), NEW)
    && forall k | k in MOVES :: !Starts(TrimCr(l), k)
  }

  ghost predicate ValidItem(item: Item) {
    match item
    case Git(old_, new_) => ValidSpelled(old_) && ValidSpelled(new_)
    case Pair(before, after) => ValidSide(before) && ValidSide(after)
    case Lone(head, side) => (head == OLD || head == NEW) && ValidSide(side)
    case Move(kind, path, _) => kind in MOVES && PlainPath(path)
    case Hunk(range, body) => Without(range, '\n') && forall i | 0 <= i < |body| :: BodyLine(body[i])
    case Other(text) => QuietLine(text)
  }

  /** Two header lines in a row are a pair, not one lone line after another. */
  ghost predicate Separate(a: Item, b: Item) {
    !(a.Lone? && a.head == OLD && b.Lone? && b.head == NEW)
  }

  ghost predicate ValidDiff(items: seq<Item>) {
    && (forall i | 0 <= i < |items| :: ValidItem(items[i]))
    && forall i | 0 < i < |items| :: Separate(items[i - 1], items[i])
  }

  // ----- Printing -----

  function ItemLines(item: Item): (r: seq<string>)
    ensures r != []
  {
    match item
    case Git(old_, new_) => [GIT + (Spell(old_) + [' '] + Spell(new_))]
    case Pair(before, after) => [OLD + SideText(before), NEW + SideText(after)]
    case Lone(head, side) => [head + SideText(side)]
    case Move(kind, path, quoted) => [kind + Quote(PathText(path), quoted)]
    case Hunk(range, body) => [HUNK + range] + body
    case Other(text) => [text]
  }

  function AllLines(items: seq<Item>): seq<string> {
    if items == [] then [] else ItemLines(items[0]) + AllLines(items[1..])
  }

  function Print(items: seq<Item>): string { Unlines(AllLines(items)) }

  // ----- What is named and what is read -----

  /** A path the diff names, and what the scan reads there, if anything. */
  datatype Mention = Mention(path: Path, read: Option<Path>)

  function ReadIf(s: Spelled, flat: bool, seen: bool): Mention {
    Mention(Meant(s, flat), if seen then Some(ReadAs(s)) else None)
  }

  function SideMention(side: Option<Spelled>, flat: bool, seen: bool): seq<Mention> {
    if side.None? then [] else [ReadIf(side.value, flat, seen)]
  }

  /** Header lines are read in pairs while no hunk is open; rename and copy headers never are. */
  function Mentions(item: Item, open: bool, flat: bool): seq<Mention> {
    match item
    case Git(old_, new_) => [ReadIf(old_, flat, Splits(new_)), ReadIf(new_, flat, Splits(new_))]
    case Pair(before, after) => SideMention(before, flat, !open) + SideMention(after, flat, !open)
    case Lone(_, side) => SideMention(side, flat, false)
    case Move(_, path, _) => [Mention(path, None)]
    case Hunk(_, _) => []
    case Other(_) => []
  }

  function Reads(ms: seq<Mention>): seq<Path> {
    if ms == [] then [] else (if ms[0].read.Some? then [ms[0].read.value] else []) + Reads(ms[1..])
  }

  lemma {:induction false} ReadsMembers(ms: seq<Mention>, p: Path)
    ensures p in Reads(ms) <==> exists m | m in ms :: m.read == Some(p)
  {
    if ms != [] {
      ReadsMembers(ms[1..], p);
      assert ms == [ms[0]] + ms[1..];
    }
  }

  predicate Opens(item: Item) {
    item.Hunk? || (item.Other? && Starts(TrimCr(item.text), HUNK))
  }

  /** Only a git line closes a hunk. */
  predicate OpenAfter(item: Item, open: bool) {
    !item.Git? && (open || Opens(item))
  }

  // ----- Scanning one item -----

  lemma {:induction false} LineShape(front: string, text: string)
    requires front != "" && text != "" && text[|text| - 1] != '\r'
    ensures TrimCr(front + text) == front + text && Starts(front + text, front) && (front + text)[0] == front[0]
  {
    var l := front + text;
    assert l[|l| - 1] == text[|text| - 1];
    assert l[..|front|] == front;
  }

  /** Which kind of line the scan takes it for is told by the first character. */
  lemma {:induction false} FirstTells(l: string, c: char)
    requires l != "" && l[0] == c
    ensures c != 'd' ==> !Starts(l, GIT)
    ensures c != '@' ==> !Starts(l, HUNK)
    ensures c != '-' ==> !Starts(l, OLD)
    ensures c != '+' ==> !Starts(l, NEW)
  {
  }

  lemma {:induction false} ScanGit(old_: Spelled, new_: Spelled, rest: seq<string>, open: bool)
    requires ValidSpelled(old_) && ValidSpelled(new_)
    ensures Scan([GIT + (Spell(old_) + [' '] + Spell(new_))] + rest, open) ==
            Both(Ok(if Splits(new_) then [ReadAs(old_), ReadAs(new_)] else []), Scan(rest, false))
  {
    var names := Spell(old_) + [' '] + Spell(new_);
    var line := GIT + names;
    var all := [line] + rest;
    GitLineEnds(old_, new_);
    GitNamesRead(old_, new_);
    assert line[..|GIT|] == GIT && line[|GIT|..] == names;
    assert all[0] == line && all[1..] == rest;
  }

  lemma {:induction false} ScanTwo(a: string, b: string, rest: seq<string>)
    requires TrimCr(a) == a && TrimCr(b) == b && Starts(a, OLD) && Starts(b, NEW)
    ensures Scan([a, b] + rest, false) == Both(Both(HeaderPath(a), HeaderPath(b)), Scan(rest, false))
  {
    var all := [a, b] + rest;
    assert a[0] == '-';
    FirstTells(a, '-');
    assert all[0] == a && all[1] == b && all[2..] == rest;
  }

  lemma {:induction false} SideLineStarts(head: string, side: Option<Spelled>)
    requires (head == OLD || head == NEW) && ValidSide(side)
    ensures var l := head + SideText(side); TrimCr(l) == l && Starts(l, head)
  {
    SideShape(side);
    LineShape(head, SideText(side));
  }

  lemma {:induction false} ScanPair(before: Option<Spelled>, after: Option<Spelled>, rest: seq<string>)
    requires ValidSide(before) && ValidSide(after)
    ensures Scan([OLD + SideText(before), NEW + SideText(after)] + rest, false) ==
            Both(Ok(SideReads(before) + SideReads(after)), Scan(rest, false))
  {
    SideLineStarts(OLD, before);
    SideLineStarts(NEW, after);
    ScanTwo(OLD + SideText(before), NEW + SideText(after), rest);
    HeaderReads(OLD, before);
    HeaderReads(NEW, after);
  }

  /** A line that is no git line, no start of a hunk and no first half of a pair is passed over. */
  lemma {:induction false} ScanSkips(line: string, rest: seq<string>, open: bool)
    requires !Starts(TrimCr(line), GIT) && !Starts(TrimCr(line), HUNK)
    requires open || !Starts(TrimCr(line), OLD) || rest == [] || !Starts(TrimCr(rest[0]), NEW)
    ensures Scan([line] + rest, open) == Scan(rest, open)
  {
    var all := [line] + rest;
    assert all[0] == line && all[1..] == rest;
    if rest != [] { assert all[1] == rest[0]; }
  }

  lemma {:induction false} ScanOpens(line: string, rest: seq<string>, open: bool)
    requires Starts(TrimCr(line), HUNK)
    ensures Scan([line] + rest, open) == Scan(rest, true)
  {
    var all := [line] + rest;
    assert TrimCr(line)[0] == '@';
    FirstTells(TrimCr(line), '@');
    assert all[0] == line && all[1..] == rest;
  }

  lemma {:induction false} ScanLone(head: string, side: Option<Spelled>, rest: seq<string>, open: bool)
    requires (head == OLD || head == NEW) && ValidSide(side)
    requires !open && head == OLD && rest != [] ==> !Starts(TrimCr(rest[0]), NEW)
    ensures Scan([head + SideText(side)] + rest, open) == Scan(rest, open)
  {
    var line := head + SideText(side);
    SideShape(side);
    LineShape(head, SideText(side));
    FirstTells(line, head[0]);
    ScanSkips(line, rest, open);
  }

  lemma {:induction false} MoveShape(kind: string, path: Path, quoted: bool)
    requires kind in MOVES && PlainPath(path)
    ensures var text := Quote(PathText(path), quoted);
      text != "" && text[|text| - 1] != '\r' && Without(text, '\n') && (kind[0] == 'r' || kind[0] == 'c')
  {
    PathTextStart(path);
    TextWithout(path, '\n');
  }

  lemma {:induction false} ScanMove(kind: string, path: Path, quoted: bool, rest: seq<string>, open: bool)
    requires kind in MOVES && PlainPath(path)
    ensures Scan([kind + Quote(PathText(path), quoted)] + rest, open) == Scan(rest, open)
  {
    var text := Quote(PathText(path), quoted);
    MoveShape(kind, path, quoted);
    LineShape(kind, text);
    FirstTells(kind + text, kind[0]);
    ScanSkips(kind + text, rest, open);
  }

  lemma {:induction false} HunkHeaderOpens(range: string)
    ensures Starts(TrimCr(HUNK + range), HUNK)
  {
    var line := HUNK + range;
    assert line[0] == '@' && line[1] == '@';
    assert TrimCr(line)[..2] == HUNK;
  }

  lemma {:induction false} BodyLineIsInert(l: string)
    requires BodyLine(l)
    ensures Inert(l)
  {
    if TrimCr(l) != "" { assert TrimCr(l)[0] == l[0]; }
  }

  lemma {:induction false} ScanHunk(range: string, body: seq<string>, rest: seq<string>, open: bool)
    requires forall i | 0 <= i < |body| :: BodyLine(body[i])
    ensures Scan([HUNK + range] + body + rest, open) == Scan(rest, true)
  {
    HunkHeaderOpens(range);
    ScanOpens(HUNK + range, body + rest, open);
    assert [HUNK + range] + body + rest == [HUNK + range] + (body + rest);
    forall i | 0 <= i < |body| ensures Inert(body[i]) { BodyLineIsInert(body[i]); }
    HunkBodyIsInert(body, rest);
  }

  lemma {:induction false} ReadsOfTwo(a: Mention, b: Mention)
    ensures Reads([a, b]) == Reads([a]) + Reads([b])
    ensures Reads([a]) == if a.read.Some? then [a.read.value] else []
    ensures Reads([b]) == if b.read.Some? then [b.read.value] else []
  {
    assert [a, b][1..] == [b] && [a][1..] == [] && [b][1..] == [];
  }

  /** The reads of one item, written out. */
  function ItemReads(item: Item, open: bool): seq<Path> {
    match item
    case Git(old_, new_) => if Splits(new_) then [ReadAs(old_), ReadAs(new_)] else []
    case Pair(before, after) => if open then [] else SideReads(before) + SideReads(after)
    case _ => []
  }

  lemma {:induction false} ReadsOfSides(a: Option<Spelled>, b: Option<Spelled>, flat: bool, seen: bool)
    ensures Reads(SideMention(a, flat, seen) + SideMention(b, flat, seen)) ==
            if seen then SideReads(a) + SideReads(b) else []
    ensures Reads(SideMention(a, flat, false)) == []
  {
    if a.Some? && b.Some? { ReadsOfTwo(ReadIf(a.value, flat, seen), ReadIf(b.value, flat, seen)); }
    if a.Some? { ReadsOfTwo(ReadIf(a.value, flat, seen), ReadIf(a.value, flat, false)); }
    if b.Some? { ReadsOfTwo(ReadIf(b.value, flat, seen), ReadIf(b.value, flat, seen)); }
    assert SideMention(a, flat, seen) + [] == SideMention(a, flat, seen);
    assert [] + SideMention(b, flat, seen) == SideMention(b, flat, seen);
  }

  /** How a diff counts leading components changes what it names, not what is read. */
  lemma {:induction false} ReadsOfItem(item: Item, open: bool, flat: bool)
    ensures Reads(Mentions(item, open, flat)) == ItemReads(item, open)
  {
    match item
    case Git(old_, new_) => ReadsOfTwo(ReadIf(old_, flat, Splits(new_)), ReadIf(new_, flat, Splits(new_)));
    case Pair(before, after) => ReadsOfSides(before, after, flat, !open);
    case Lone(_, side) => ReadsOfSides(side, side, flat, false);
    case Move(_, path, _) => ReadsOfTwo(Mention(path, None), Mention(path, None));
    case Hunk(_, _) =>
    case Other(_) =>
  }

  lemma {:induction false} ScanHiddenPair(before: Option<Spelled>, after: Option<Spelled>, rest: seq<string>)
    requires ValidSide(before) && ValidSide(after)
    ensures Scan([OLD + SideText(before), NEW + SideText(after)] + rest, true) == Scan(rest, true)
  {
    var a, b := OLD + SideText(before), NEW + SideText(after);
    ScanLone(OLD, before, [b] + rest, true);
    ScanLone(NEW, after, rest, true);
    TwoFirst(a, b, rest);
  }

  /** A printed item contributes its reads, and opens or closes a hunk. */
  lemma {:induction false} ScanItem(item: Item, rest: seq<string>, open: bool)
    requires ValidItem(item)
    requires item.Lone? && item.head == OLD && rest != [] ==> !Starts(TrimCr(rest[0]), NEW)
    ensures Scan(ItemLines(item) + rest, open) ==
            Both(Ok(ItemReads(item, open)), Scan(rest, OpenAfter(item, open)))
  {
    NothingFirst(Scan(rest, OpenAfter(item, open)));
    match item
    case Git(old_, new_) => ScanGit(old_, new_, rest, open);
    case Pair(before, after) =>
      if open { ScanHiddenPair(before, after, rest); } else { ScanPair(before, after, rest); }
    case Lone(head, side) => ScanLone(head, side, rest, open);
    case Move(kind, path, quoted) => ScanMove(kind, path, quoted, rest, open);
    case Hunk(range, body) => ScanHunk(range, body, rest, open);
    case Other(text) =>
      if Opens(item) { ScanOpens(text, rest, open); } else { ScanSkips(text, rest, open); }
  }

  // ----- Scanning a whole diff -----

  lemma {:induction false} FirstLine(item: Item)
    requires ValidItem(item) && !(item.Lone? && item.head == NEW)
    ensures !Starts(TrimCr(ItemLines(item)[0]), NEW)
  {
    match item
    case Git(old_, new_) => LineIs(GIT, Spell(old_) + [' '] + Spell(new_), 'd');
    case Pair(before, _) => LineIs(OLD, SideText(before), '-');
    case Lone(_, side) => LineIs(OLD, SideText(side), '-');
    case Move(kind, path, quoted) =>
      MoveShape(kind, path, quoted);
      LineIs(kind, Quote(PathText(path), quoted), kind[0]);
    case Hunk(range, _) => LineIs(HUNK, range, '@');
    case Other(_) =>
  }

  lemma {:induction false} LineIs(front: string, text: string, c: char)
    requires |front| > 1 && front[0] == c && c != '+'
    ensures !Starts(TrimCr(front + text), NEW)
  {
    assert (front + text)[0] == c;
    FirstTells(TrimCr(front + text), c);
  }

  /** The paths the scan finds, item by item. */
  function FoundParts(items: seq<Item>, open: bool): seq<seq<Path>> {
    if items == [] then []
    else [ItemReads(items[0], open)] + FoundParts(items[1..], OpenAfter(items[0], open))
  }

  function Found(items: seq<Item>, open: bool): seq<Path> {
    Flatten(FoundParts(items, open))
  }

  lemma {:induction false} FoundCons(items: seq<Item>, open: bool)
    requires items != []
    ensures Found(items, open) == ItemReads(items[0], open) + Found(items[1..], OpenAfter(items[0], open))
  {
    var parts := FoundParts(items, open);
    assert parts[0] == ItemReads(items[0], open);
    assert parts[1..] == FoundParts(items[1..], OpenAfter(items[0], open));
  }

  lemma {:induction false} TailIsValid(items: seq<Item>)
    requires items != [] && ValidDiff(items)
    ensures ValidItem(items[0]) && ValidDiff(items[1..])
    ensures items[0].Lone? && items[0].head == OLD && AllLines(items[1..]) != [] ==>
              !Starts(TrimCr(AllLines(items[1..])[0]), NEW)
  {
    var tail := items[1..];
    forall i | 0 < i < |tail| ensures Separate(tail[i - 1], tail[i]) { assert Separate(items[i], items[i + 1]); }
    if tail != [] {
      assert Separate(items[0], items[1]) && tail[0] == items[1];
      if items[0].Lone? && items[0].head == OLD {
        FirstLine(tail[0]);
        assert AllLines(tail)[0] == ItemLines(tail[0])[0];
      }
    }
  }

  lemma {:induction false} ScanItems(items: seq<Item>, open: bool)
    requires ValidDiff(items)
    ensures Scan(AllLines(items), open) == Ok(Found(items, open))
  {
    if items != [] {
      TailIsValid(items);
      ScanItem(items[0], AllLines(items[1..]), open);
      ScanItems(items[1..], OpenAfter(items[0], open));
      FoundCons(items, open);
    }
  }

  // ----- Where a hunk is open -----

  /** Item `j` opens a hunk, and no git line follows it before item `i`. */
  ghost predicate OpenSince(items: seq<Item>, j: nat, i: nat) {
    j < i <= |items| && Opens(items[j]) && forall k | j < k < i :: !items[k].Git?
  }

  ghost predicate OpenAt(items: seq<Item>, i: nat) {
    exists j: nat :: OpenSince(items, j, i)
  }

  lemma {:induction false} OpenSinceStep(items: seq<Item>, j: nat, n: nat)
    requires 0 < n <= |items|
    ensures OpenSince(items, j, n) <==>
            (j == n - 1 && Opens(items[j])) || (!items[n - 1].Git? && OpenSince(items, j, n - 1))
  {
  }

  lemma {:induction false} OpenAtStep(items: seq<Item>, n: nat)
    requires 0 < n <= |items|
    ensures OpenAt(items, n) <==> OpenAfter(items[n - 1], OpenAt(items, n - 1))
  {
    forall j: nat { OpenSinceStep(items, j, n); }
    if Opens(items[n - 1]) { assert OpenSince(items, n - 1, n); }
    if OpenAt(items, n - 1) {
      var j: nat :| OpenSince(items, j, n - 1);
      assert !items[n - 1].Git? ==> OpenSince(items, j, n);
    }
  }

  /** Whether a hunk is open before each item. */
  ghost predicate Follows(items: seq<Item>, opens: seq<bool>) {
    |opens| == |items| && forall i | 0 < i < |items| :: opens[i] == OpenAfter(items[i - 1], opens[i - 1])
  }

  lemma {:induction false} FoundPartsAre(items: seq<Item>, opens: seq<bool>, open: bool)
    requires Follows(items, opens) && (items != [] ==> opens[0] == open)
    ensures |FoundParts(items, open)| == |items|
    ensures forall i | 0 <= i < |items| :: FoundParts(items, open)[i] == ItemReads(items[i], opens[i])
  {
    if items != [] {
      FoundPartsAre(items[1..], opens[1..], OpenAfter(items[0], open));
    }
  }

  // ----- Where leading components count -----

  const EXTENDED := ["index ", "old mode ", "new mode ", "deleted file mode ", "new file mode ",
                     "similarity index ", "dissimilarity index "]

  /** A line that belongs to the header of a git section. */
  predicate HeaderItem(item: Item) {
    item.Pair? || item.Lone? || item.Move? || (item.Other? && exists e | e in EXTENDED :: Starts(item.text, e))
  }

  /** Item `i` stands in the header of the git section that item `g` starts. */
  ghost predicate HeaderSince(items: seq<Item>, g: nat, i: nat) {
    g < i <= |items| && items[g].Git? && forall k | g < k < i :: HeaderItem(items[k])
  }

  /**
   A header pair outside a git section, with a bare new name and its hunk behind it: from there
   on applying the patch takes every name as it is written.
   */
  ghost predicate Flattens(items: seq<Item>, i: nat) {
    && i + 1 < |items| && items[i].Pair? && items[i].after.Some? && items[i].after.value.lead.None?
    && items[i + 1].Hunk? && Starts(items[i + 1].range, " -") && forall g: nat :: !HeaderSince(items, g, i)
  }

  ghost predicate FlatAt(items: seq<Item>, i: nat) {
    exists j: nat :: j <= i && Flattens(items, j)
  }

  /** What item `i` of the diff names, and what the scan reads there. */
  ghost predicate Mentioned(items: seq<Item>, i: nat, m: Mention) {
    i < |items| && m in Mentions(items[i], OpenAt(items, i), FlatAt(items, i))
  }

  ghost predicate NamedIn(items: seq<Item>, p: Path) {
    exists i: nat, m :: Mentioned(items, i, m) && m.path == p
  }

  ghost predicate ReadIn(items: seq<Item>, p: Path) {
    exists i: nat, m :: Mentioned(items, i, m) && m.read == Some(p)
  }

  lemma {:induction false} FoundIff(items: seq<Item>, p: Path)
    ensures p in Found(items, false) <==> ReadIn(items, p)
  {
    var opens := seq(|items|, i requires 0 <= i => OpenAt(items, i));
    forall i | 0 < i < |items| ensures opens[i] == OpenAfter(items[i - 1], opens[i - 1]) { OpenAtStep(items, i); }
    assert !OpenAt(items, 0);
    FoundPartsAre(items, opens, false);
    FlattenMembers(FoundParts(items, false), p);
    forall i: nat | i < |items|
      ensures p in FoundParts(items, false)[i] <==> exists m :: Mentioned(items, i, m) && m.read == Some(p)
    {
      ReadsOfItem(items[i], OpenAt(items, i), FlatAt(items, i));
      ReadsMembers(Mentions(items[i], OpenAt(items, i), FlatAt(items, i)), p);
    }
  }

  // ----- Printed text -----

  lemma {:induction false} LinesOfUnlines(lines: seq<string>)
    requires forall i | 0 <= i < |lines| :: Without(lines[i], '\n')
    ensures Lines(Unlines(lines)) == TrimAll(lines)
  {
    SplitUnlines(lines);
    assert (lines + [""])[..|lines|] == lines;
  }

  function TrimItem(item: Item): Item {
    match item
    case Hunk(range, body) => Hunk(TrimCr(range), TrimAll(body))
    case Other(text) => Other(TrimCr(text))
    case _ => item
  }

  lemma {:induction false} TrimAllJoins(a: seq<string>, b: seq<string>)
    ensures TrimAll(a + b) == TrimAll(a) + TrimAll(b)
  {
  }

  lemma {:induction false} TrimHunkLine(range: string)
    ensures TrimCr(HUNK + range) == HUNK + TrimCr(range)
  {
    var line := HUNK + range;
    if range != "" { assert line[|line| - 1] == range[|range| - 1]; } else { assert line == HUNK; }
  }

  lemma {:induction false} GitLineEnds(old_: Spelled, new_: Spelled)
    requires ValidSpelled(old_) && ValidSpelled(new_)
    ensures TrimCr(GIT + (Spell(old_) + [' '] + Spell(new_))) == GIT + (Spell(old_) + [' '] + Spell(new_))
  {
    var names := Spell(old_) + [' '] + Spell(new_);
    SpellShape(new_);
    assert names[|names| - 1] == Spell(new_)[|Spell(new_)| - 1];
    LineShape(GIT, names);
  }

  lemma {:induction false} LineWithout(front: string, a: string, b: string, c: char)
    requires Without(front, c) && Without(a, c) && Without(b, c) && c != ' '
    ensures Without(front + (a + [' '] + b), c)
  {
  }

  lemma {:induction false} GitLineNoNewline(old_: Spelled, new_: Spelled)
    requires ValidSpelled(old_) && ValidSpelled(new_)
    ensures Without(GIT + (Spell(old_) + [' '] + Spell(new_)), '\n')
  {
    SpellWithout(old_, '\n');
    SpellWithout(new_, '\n');
    LineWithout(GIT, Spell(old_), Spell(new_), '\n');
  }

  lemma {:induction false} HeadNoNewline(head: string)
    requires head == OLD || head == NEW
    ensures Without(head, '\n')
  {
  }

  lemma {:induction false} SideLineShape(head: string, side: Option<Spelled>)
    requires (head == OLD || head == NEW) && ValidSide(side)
    ensures var l := head + SideText(side); TrimCr(l) == l && Without(l, '\n')
  {
    SideLineStarts(head, side);
    SideShape(side);
    HeadNoNewline(head);
    WithoutJoins(head, SideText(side), '\n');
  }

  lemma {:induction false} TrimItemLines(item: Item)
    requires ValidItem(item)
    ensures TrimAll(ItemLines(item)) == ItemLines(TrimItem(item))
  {
    match item
    case Git(old_, new_) => GitLineEnds(old_, new_);
    case Pair(before, after) =>
      SideLineShape(OLD, before);
      SideLineShape(NEW, after);
    case Lone(head, side) => SideLineShape(head, side);
    case Move(kind, path, quoted) =>
      MoveShape(kind, path, quoted);
      LineShape(kind, Quote(PathText(path), quoted));
    case Hunk(range, body) =>
      TrimHunkLine(range);
      TrimAllJoins([HUNK + range], body);
    case Other(_) =>
  }

  lemma {:induction false} TrimmedQuiet(l: string)
    requires QuietLine(l)
    ensures QuietLine(TrimCr(l))
  {
    var t := TrimCr(l);
    assert TrimCr(t) <= t <= l;
    forall k | k in MOVES ensures !Starts(TrimCr(t), k) { assert !Starts(t, k); }
  }

  lemma {:induction false} TrimmedBody(l: string)
    requires BodyLine(l)
    ensures BodyLine(TrimCr(l))
  {
  }

  lemma {:induction false} TrimKeepsItem(item: Item, open: bool)
    requires ValidItem(item)
    ensures ValidItem(TrimItem(item)) && ItemReads(TrimItem(item), open) == ItemReads(item, open)
    ensures OpenAfter(TrimItem(item), open) == OpenAfter(item, open)
  {
    match item
    case Hunk(_, body) => forall j | 0 <= j < |body| ensures BodyLine(TrimCr(body[j])) { TrimmedBody(body[j]); }
    case Other(text) =>
      TrimmedQuiet(text);
      if Starts(TrimCr(text), HUNK) { assert Starts(TrimCr(TrimCr(text)), HUNK); }
    case _ =>
  }

  function TrimItems(items: seq<Item>): seq<Item> {
    seq(|items|, i requires 0 <= i < |items| => TrimItem(items[i]))
  }

  lemma {:induction false} TrimItemsCons(items: seq<Item>)
    requires items != []
    ensures TrimItems(items)[0] == TrimItem(items[0]) && TrimItems(items)[1..] == TrimItems(items[1..])
  {
  }

  lemma {:induction false} TrimKeepsValid(items: seq<Item>)
    requires ValidDiff(items)
    ensures ValidDiff(TrimItems(items))
  {
    var trimmed := TrimItems(items);
    forall i | 0 <= i < |items| ensures ValidItem(trimmed[i]) { TrimKeepsItem(items[i], false); }
    forall i | 0 < i < |items| ensures Separate(trimmed[i - 1], trimmed[i]) { assert Separate(items[i - 1], items[i]); }
  }

  lemma {:induction false} TrimAllLines(items: seq<Item>)
    requires ValidDiff(items)
    ensures TrimAll(AllLines(items)) == AllLines(TrimItems(items))
  {
    if items != [] {
      TailIsValid(items);
      TrimAllLines(items[1..]);
      TrimItemLines(items[0]);
      TrimAllJoins(ItemLines(items[0]), AllLines(items[1..]));
      TrimItemsCons(items);
    }
  }

  lemma {:induction false} TrimKeepsFound(items: seq<Item>, open: bool)
    requires ValidDiff(items)
    ensures Found(TrimItems(items), open) == Found(items, open)
  {
    if items != [] {
      TailIsValid(items);
      TrimItemsCons(items);
      TrimKeepsItem(items[0], open);
      FoundCons(items, open);
      FoundCons(TrimItems(items), open);
      TrimKeepsFound(items[1..], OpenAfter(items[0], open));
    }
  }

  ghost predicate NoNewlines(lines: seq<string>) {
    forall i | 0 <= i < |lines| :: Without(lines[i], '\n')
  }

  lemma {:induction false} WithoutJoins(a: string, b: string, c: char)
    requires Without(a, c) && Without(b, c)
    ensures Without(a + b, c)
  {
  }

  lemma {:induction false} MoveKinds(kind: string)
    requires kind in MOVES
    ensures Without(kind, '\n')
  {
  }

  lemma {:induction false} MoveNoNewline(kind: string, path: Path, quoted: bool)
    requires kind in MOVES && PlainPath(path)
    ensures Without(kind + Quote(PathText(path), quoted), '\n')
  {
    MoveShape(kind, path, quoted);
    MoveKinds(kind);
    WithoutJoins(kind, Quote(PathText(path), quoted), '\n');
  }

  lemma {:induction false} OneLine(l: string)
    requires Without(l, '\n')
    ensures NoNewlines([l])
  {
  }

  lemma {:induction false} NoNewlinesJoins(a: seq<string>, b: seq<string>)
    requires NoNewlines(a) && NoNewlines(b)
    ensures NoNewlines(a + b)
  {
  }

  lemma {:induction false} PairNoNewlines(before: Option<Spelled>, after: Option<Spelled>)
    requires ValidSide(before) && ValidSide(after)
    ensures NoNewlines([OLD + SideText(before), NEW + SideText(after)])
  {
    SideLineShape(OLD, before);
    SideLineShape(NEW, after);
  }

  lemma {:induction false} ItemNoNewlines(item: Item)
    requires ValidItem(item)
    ensures NoNewlines(ItemLines(item))
  {
    match item
    case Git(old_, new_) => GitLineNoNewline(old_, new_);
    case Pair(before, after) => PairNoNewlines(before, after);
    case Lone(head, side) => SideLineShape(head, side);
    case Move(kind, path, quoted) => MoveNoNewline(kind, path, quoted);
    case Hunk(range, body) =>
      WithoutJoins(HUNK, range, '\n');
      OneLine(HUNK + range);
      NoNewlinesJoins([HUNK + range], body);
    case Other(_) =>
  }

  lemma {:induction false} AllNoNewlines(items: seq<Item>)
    requires ValidDiff(items)
    ensures NoNewlines(AllLines(items))
  {
    if items != [] {
      TailIsValid(items);
      AllNoNewlines(items[1..]);
      ItemNoNewlines(items[0]);
    }
  }

  lemma {:induction false} ScanPrinted(items: seq<Item>)
    requires ValidDiff(items)
    ensures Scan(Lines(Print(items)), false) == Ok(Found(items, false))
  {
    AllNoNewlines(items);
    LinesOfUnlines(AllLines(items));
    TrimAllLines(items);
    TrimKeepsValid(items);
    ScanItems(TrimItems(items), false);
    TrimKeepsFound(items, false);
  }

  // ----- What is found of what is named -----

  /** Scanning a printed diff finds exactly what its items let it read, whatever the hunks say. */
  lemma {:induction false} DiffRoundTrip(items: seq<Item>)
    requires ValidDiff(items)
    ensures var found := Scan(Lines(Print(items)), false);
      found.Ok? && forall p :: p in found.value <==> ReadIn(items, p)
  {
    ScanPrinted(items);
    forall p ensures p in Found(items, false) <==> ReadIn(items, p) { FoundIff(items, p); }
  }

  /** The scan does not get the path from where it is named. */
  predicate Overlooked(m: Mention) {
    m.read != Some(m.path)
  }

  /** Everything named in one place is read there, exactly when it is spelled clearly and seen. */
  ghost predicate ReadRight(item: Item, open: bool, flat: bool) {
    match item
    case Git(old_, new_) => Clear(old_, flat) && Splits(new_) && !flat
    case Pair(before, after) => SideRight(before, open, flat) && SideRight(after, open, flat)
    case Lone(_, side) => side.None?
    case Move(_, _, _) => false
    case _ => true
  }

  predicate SideRight(side: Option<Spelled>, open: bool, flat: bool) {
    side.Some? ==> !open && Clear(side.value, flat)
  }

  lemma {:induction false} OverlookedIff(item: Item, open: bool, flat: bool)
    requires ValidItem(item)
    ensures ReadRight(item, open, flat) <==> forall m | m in Mentions(item, open, flat) :: !Overlooked(m)
  {
    var ms := Mentions(item, open, flat);
    match item
    case Git(old_, new_) =>
      ReadRightIff(old_, flat);
      ReadRightIff(new_, flat);
      assert ReadIf(old_, flat, Splits(new_)) in ms && ReadIf(new_, flat, Splits(new_)) in ms;
    case Pair(before, after) =>
      SideOverlookedIff(before, open, flat);
      SideOverlookedIff(after, open, flat);
    case Lone(_, side) => if side.Some? { assert ReadIf(side.value, flat, false) in ms; }
    case Move(_, path, _) => assert Mention(path, None) in ms;
    case _ =>
  }

  lemma {:induction false} SideOverlookedIff(side: Option<Spelled>, open: bool, flat: bool)
    requires ValidSide(side)
    ensures SideRight(side, open, flat) <==> forall m | m in SideMention(side, flat, !open) :: !Overlooked(m)
  {
    if side.Some? {
      ReadRightIff(side.value, flat);
      var m := ReadIf(side.value, flat, !open);
      assert !Overlooked(m) <==> !open && ReadAs(side.value) == Meant(side.value, flat);
      assert SideMention(side, flat, !open) == [m] && m in [m];
    }
  }

  /** A diff gives up all the paths it names exactly when each overlooked one is read somewhere else. */
  lemma {:induction false} AllFoundIff(items: seq<Item>)
    requires ValidDiff(items)
    ensures var found := Scan(Lines(Print(items)), false);
      found.Ok? && ((forall p | NamedIn(items, p) :: p in found.value) <==>
        forall i: nat, m | Mentioned(items, i, m) && Overlooked(m) :: ReadIn(items, m.path))
  {
    DiffRoundTrip(items);
    forall i: nat, m | Mentioned(items, i, m)
      ensures NamedIn(items, m.path) && (Overlooked(m) || ReadIn(items, m.path))
    {
    }
  }

  /** The item spells everything it names the way git does. */
  ghost predicate ClearItem(item: Item) {
    match item
    case Git(old_, new_) => AsGit(Some(old_)) && Splits(new_)
    case Pair(before, after) => AsGit(before) && AsGit(after)
    case _ => true
  }

  predicate AsGit(side: Option<Spelled>) {
    side.Some? ==> !side.value.quoted && Usual(side.value.lead)
  }

  /** Item `i` names nothing but the two paths of the clear git line `g`. */
  ghost predicate Repeats(items: seq<Item>, g: nat, i: nat) {
    && g < |items| && i < |items| && items[g].Git? && ClearItem(items[g]) && ClearItem(items[i])
    && forall m | m in Mentions(items[i], OpenAt(items, i), FlatAt(items, i)) ::
         m.path == items[g].old_.path || m.path == items[g].new_.path
  }

  /** Every line that names a path repeats a git line, as git writes changes, renames and copies. */
  ghost predicate GitStyle(items: seq<Item>) {
    forall i: nat, m | Mentioned(items, i, m) :: exists g: nat :: Repeats(items, g, i)
  }

  lemma {:induction false} ClearReads(item: Item, open: bool, m: Mention)
    requires ClearItem(item) && m in Mentions(item, open, false) && m.read.Some?
    ensures m.read == Some(m.path)
  {
  }

  /** Where no name is bare, leading components count to the end. */
  lemma {:induction false} GitStyleIsNotFlat(items: seq<Item>, i: nat)
    requires GitStyle(items)
    ensures !FlatAt(items, i)
  {
    forall j: nat | j < |items| && items[j].Pair? && items[j].after.Some? ensures AsGit(items[j].after) {
      assert Mentioned(items, j, ReadIf(items[j].after.value, FlatAt(items, j), !OpenAt(items, j)));
      var g: nat :| Repeats(items, g, j);
    }
  }

  lemma {:induction false} RepeatedIsRead(items: seq<Item>, g: nat, i: nat, m: Mention)
    requires Repeats(items, g, i) && Mentioned(items, i, m) && !FlatAt(items, i) && !FlatAt(items, g)
    ensures ReadIn(items, m.path) && (m.read.Some? ==> m.read == Some(m.path))
  {
    var a, b := ReadIf(items[g].old_, false, true), ReadIf(items[g].new_, false, true);
    assert Mentioned(items, g, a) && Mentioned(items, g, b);
    assert a.read == Some(items[g].old_.path) && b.read == Some(items[g].new_.path);
    if m.read.Some? { ClearReads(items[i], OpenAt(items, i), m); }
  }

  lemma {:induction false} GitStyleReads(items: seq<Item>, i: nat, m: Mention)
    requires GitStyle(items) && Mentioned(items, i, m)
    ensures ReadIn(items, m.path) && (m.read.Some? ==> m.read == Some(m.path))
  {
    var g: nat :| Repeats(items, g, i);
    GitStyleIsNotFlat(items, g);
    GitStyleIsNotFlat(items, i);
    RepeatedIsRead(items, g, i, m);
  }

  /** Of a diff in git's own style the scan finds exactly the named paths. */
  lemma {:induction false} GitDiffRoundTrip(items: seq<Item>)
    requires ValidDiff(items) && GitStyle(items)
    ensures var found := Scan(Lines(Print(items)), false);
      found.Ok? && forall p :: p in found.value <==> NamedIn(items, p)
  {
    DiffRoundTrip(items);
    forall p ensures ReadIn(items, p) <==> NamedIn(items, p) {
      if NamedIn(items, p) {
        var i: nat, m :| Mentioned(items, i, m) && m.path == p;
        GitStyleReads(items, i, m);
      }
      if ReadIn(items, p) {
        var i: nat, m :| Mentioned(items, i, m) && m.read == Some(p);
        GitStyleReads(items, i, m);
      }
    }
  }

  /** So a printed patch passes exactly when what it lets the scan read includes the declared path and is claimed. */
  lemma {:induction false} PrintedPatchAcceptedIff(items: seq<Item>, declared: Path, claims: seq<Path>)
    requires ValidDiff(items)
    ensures PatchOk(declared, Print(items), claims) <==>
            ReadIn(items, declared) && forall p | ReadIn(items, p) :: Covered(claims, p)
  {
    DiffRoundTrip(items);
  }

  // ----- Diffs that name more than is found -----

  function Usually(p: Path, lead: string): Spelled { Spelled(p, Some(lead), false) }

  function PlainPair(p: Path): Item { Pair(Some(Usually(p, "a")), Some(Usually(p, "b"))) }

  lemma {:induction false} PlainPairValid(p: Path)
    requires PlainPath(p)
    ensures ValidSpelled(Usually(p, "a")) && ValidSpelled(Usually(p, "b")) && ValidItem(PlainPair(p))
  {
    assert PlainName("a") && PlainName("b") && !IsSpace('a') && !IsSpace('b');
  }

  lemma {:induction false} NamedAt(items: seq<Item>, i: nat, m: Mention)
    requires Mentioned(items, i, m)
    ensures NamedIn(items, m.path)
  {
  }

  /** A patch of which the scan finds one path only is accepted for a claim on it. */
  lemma {:induction false} OneFound(items: seq<Item>, p: Path)
    requires ValidDiff(items) && Found(items, false) == [p, p]
    ensures Scan(Lines(Print(items)), false) == Ok([p, p]) && PatchOk(p, Print(items), [p])
  {
    ScanPrinted(items);
    assert Covers(p, p) && p in [p];
  }

  lemma {:induction false} FoundNext(item: Item, rest: seq<Item>, open: bool)
    ensures Found([item] + rest, open) == ItemReads(item, open) + Found(rest, OpenAfter(item, open))
  {
    var items := [item] + rest;
    FoundCons(items, open);
    assert items[0] == item && items[1..] == rest;
  }

  lemma {:induction false} ThreeAre(a: Item, b: Item, c: Item)
    ensures [a, b, c] == [a] + ([b] + ([c] + []))
  {
  }

  lemma {:induction false} FoundOfThree(a: Item, b: Item, c: Item)
    ensures var o1 := OpenAfter(a, false); var o2 := OpenAfter(b, o1);
      Found([a, b, c], false) == ItemReads(a, false) + (ItemReads(b, o1) + (ItemReads(c, o2) + []))
  {
    var o1 := OpenAfter(a, false);
    var o2 := OpenAfter(b, o1);
    ThreeAre(a, b, c);
    FoundNext(a, [b] + ([c] + []), false);
    FoundNext(b, [c] + [], o1);
    FoundNext(c, [], o2);
  }

  lemma {:induction false} ThreeValid(a: Item, b: Item, c: Item)
    requires ValidItem(a) && ValidItem(b) && ValidItem(c) && !a.Lone? && !b.Lone?
    ensures ValidDiff([a, b, c])
  {
  }

  /** A rename of `p` to `q` whose git line has `r` for the new name; git writes `q` there as well. */
  function Renaming(p: Path, q: Path, r: Path): seq<Item> {
    [Git(Usually(p, "a"), Usually(r, "b")), Move("rename from ", p, false), Move("rename to ", q, false)]
  }

  lemma {:induction false} RenamingValid(p: Path, q: Path, r: Path)
    requires PlainPath(p) && PlainPath(q) && PlainPath(r)
    ensures ValidDiff(Renaming(p, q, r))
  {
    var items := Renaming(p, q, r);
    PlainPairValid(p);
    PlainPairValid(r);
    assert MOVES[0] == "rename from " && MOVES[1] == "rename to ";
    ThreeValid(items[0], items[1], items[2]);
  }

  lemma {:induction false} RenamingFinds(p: Path, q: Path, r: Path)
    ensures NamedIn(Renaming(p, q, r), q) && Found(Renaming(p, q, r), false) == [p, r]
  {
    var items := Renaming(p, q, r);
    FoundOfThree(items[0], items[1], items[2]);
    NamedAt(items, 2, Mention(q, None));
  }

  /** The new name of a rename is not found where only its header names it, and a claim on the old name is enough. */
  lemma {:induction false} RenameIsOverlooked(p: Path, q: Path)
    requires PlainPath(p) && PlainPath(q) && p != q
    ensures var items := Renaming(p, q, p);
      && ValidDiff(items) && NamedIn(items, q) && Scan(Lines(Print(items)), false) == Ok([p, p])
      && PatchOk(p, Print(items), [p])
    ensures Scan(Lines(Print(Renaming(p, q, q))), false) == Ok([p, q])
  {
    RenamingValid(p, q, p);
    RenamingValid(p, q, q);
    RenamingFinds(p, q, p);
    RenamingFinds(p, q, q);
    OneFound(Renaming(p, q, p), p);
    ScanPrinted(Renaming(p, q, q));
  }

  lemma {:induction false} PlainFinds(p: Path, q: Path, hunk: Item)
    requires hunk.Hunk?
    ensures var items := [PlainPair(p), hunk, PlainPair(q)]; NamedIn(items, q) && Found(items, false) == [p, p]
  {
    var items := [PlainPair(p), hunk, PlainPair(q)];
    FoundOfThree(PlainPair(p), hunk, PlainPair(q));
    assert !FlatAt(items, 2);
    NamedAt(items, 2, ReadIf(Usually(q, "a"), false, !OpenAt(items, 2)));
  }

  /** Of a plain diff only the files before the first hunk are found; a claim on the first is enough. */
  lemma {:induction false} SecondFileIsOverlooked(p: Path, q: Path, hunk: Item)
    requires PlainPath(p) && PlainPath(q) && p != q && hunk.Hunk? && ValidItem(hunk)
    ensures var items := [PlainPair(p), hunk, PlainPair(q)];
      && ValidDiff(items) && NamedIn(items, q) && Scan(Lines(Print(items)), false) == Ok([p, p])
      && PatchOk(p, Print(items), [p])
  {
    PlainPairValid(p);
    PlainPairValid(q);
    ThreeValid(PlainPair(p), hunk, PlainPair(q));
    PlainFinds(p, q, hunk);
    OneFound([PlainPair(p), hunk, PlainPair(q)], p);
  }

  lemma {:induction false} FoundOfOne(item: Item)
    ensures Found([item], false) == ItemReads(item, false)
  {
    FoundNext(item, [], false);
    assert [item] + [] == [item];
  }

  lemma {:induction false} OneIsNotFlat(item: Item)
    ensures !FlatAt([item], 0)
  {
  }

  /** Behind another leading component, or in quotes, a header names one path and is read as another. */
  lemma {:induction false} UnusualHeaderIsMisread(s: Spelled)
    requires ValidSpelled(s) && !Clear(s, false)
    ensures var items := [Pair(Some(s), Some(s))];
      && ValidDiff(items) && NamedIn(items, s.path) && ReadAs(s) != s.path
      && Scan(Lines(Print(items)), false) == Ok([ReadAs(s), ReadAs(s)])
  {
    var items := [Pair(Some(s), Some(s))];
    ReadRightIff(s, false);
    FoundOfOne(items[0]);
    assert [ReadAs(s)] + [ReadAs(s)] == [ReadAs(s), ReadAs(s)];
    OneIsNotFlat(items[0]);
    NamedAt(items, 0, ReadIf(s, false, !OpenAt(items, 0)));
    ScanPrinted(items);
  }

  /** A git line whose new name is not plainly behind `b/` names two paths and is read as none. */
  lemma {:induction false} UnsplitGitLineIsSkipped(old_: Spelled, new_: Spelled)
    requires ValidSpelled(old_) && ValidSpelled(new_) && !Splits(new_)
    ensures var items := [Git(old_, new_)];
      && ValidDiff(items) && NamedIn(items, old_.path) && NamedIn(items, new_.path)
      && Scan(Lines(Print(items)), false) == Ok([])
  {
    var items := [Git(old_, new_)];
    FoundOfOne(items[0]);
    OneIsNotFlat(items[0]);
    NamedAt(items, 0, ReadIf(old_, false, false));
    NamedAt(items, 0, ReadIf(new_, false, false));
    ScanPrinted(items);
  }

  function BarePair(name: string): Item {
    var s := Some(Spelled([name], None, false));
    Pair(s, s)
  }

  /** A diff of a bare name, followed by git's own line for another path. */
  function BareFirst(name: string, hunk: Item, q: Path): seq<Item> {
    [BarePair(name), hunk, Git(Usually(q, "a"), Usually(q, "b"))]
  }

  lemma {:induction false} BareIsFlat(name: string, hunk: Item, q: Path)
    requires hunk.Hunk? && Starts(hunk.range, " -")
    ensures FlatAt(BareFirst(name, hunk, q), 2)
  {
    assert Flattens(BareFirst(name, hunk, q), 0);
  }

  lemma {:induction false} BareFirstValid(name: string, hunk: Item, q: Path)
    requires PlainPath([name]) && PlainPath(q) && hunk.Hunk? && ValidItem(hunk)
    ensures ValidDiff(BareFirst(name, hunk, q))
  {
    var items := BareFirst(name, hunk, q);
    PlainPairValid(q);
    ThreeValid(items[0], items[1], items[2]);
  }

  lemma {:induction false} BareFirstFinds(name: string, hunk: Item, q: Path)
    requires hunk.Hunk?
    ensures Found(BareFirst(name, hunk, q), false) == [[name], [name], q, q]
  {
    var items := BareFirst(name, hunk, q);
    FoundOfThree(items[0], items[1], items[2]);
  }

  lemma {:induction false} BareFirstNames(name: string, hunk: Item, q: Path)
    requires hunk.Hunk? && Starts(hunk.range, " -")
    ensures NamedIn(BareFirst(name, hunk, q), ["a"] + q) && NamedIn(BareFirst(name, hunk, q), ["b"] + q)
  {
    var items := BareFirst(name, hunk, q);
    BareIsFlat(name, hunk, q);
    NamedAt(items, 2, ReadIf(Usually(q, "a"), true, true));
    NamedAt(items, 2, ReadIf(Usually(q, "b"), true, true));
  }

  /**
   After a bare name git's own lines are misread: the patch goes to the paths as they are written,
   but the scan drops their first component and a claim on what is left is enough.
   */
  lemma {:induction false} BareNameShiftsTheRest(name: string, hunk: Item, q: Path)
    requires PlainPath([name]) && PlainPath(q) && hunk.Hunk? && Starts(hunk.range, " -") && ValidItem(hunk)
    ensures var items := BareFirst(name, hunk, q);
      && ValidDiff(items) && NamedIn(items, ["a"] + q) && NamedIn(items, ["b"] + q)
      && Scan(Lines(Print(items)), false) == Ok([[name], [name], q, q])
      && PatchOk([name], Print(items), [[name], q])
  {
    BareFirstValid(name, hunk, q);
    BareFirstFinds(name, hunk, q);
    BareFirstNames(name, hunk, q);
    ScanPrinted(BareFirst(name, hunk, q));
    assert Covers([name], [name]) && Covers(q, q);
    assert [name] in [[name], q] && q in [[name], q];
  }
}
