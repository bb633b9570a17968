/**
 * The loop of `show_surah` that cuts a chapter's verse lines into messages:
 * lines are gathered into a buffer, and the buffer is sent as one group
 * whenever the next line would push it past 4000 characters.
 */
module Grouping {
  import opened PyStr

  /** The length beyond which the buffer is flushed before the next line is added. */
  const MaxGroupLength: nat := 4000

  /** A verse of the chapter as the content API lists it: its number and its marked-up text. */
  datatype Verse = Verse(verseNumber: int, text: string)

  /** One `send_verse_group` call: the text sent and the verse number it is tagged with. */
  datatype Group = Group(text: string, lastVerse: int)

  /** `f"{verse_number}. {text}\n"`. */
  function Line(v: Verse): (line: string)
    ensures |line| > 0
  {
    IntToString(v.verseNumber) + ". " + v.text + "\n"
  }

  function Lines(verses: seq<Verse>): (lines: seq<string>)
    ensures |lines| == |verses|
    ensures forall k {:trigger lines[k]} :: 0 <= k < |verses| ==> lines[k] == Line(verses[k])
  {
    seq(|verses|, k requires 0 <= k < |verses| => Line(verses[k]))
  }

  /** The verse numbers, in the order of the verses. */
  function Numbers(verses: seq<Verse>): (numbers: seq<int>)
    ensures |numbers| == |verses|
    ensures forall k {:trigger numbers[k]} :: 0 <= k < |verses| ==> numbers[k] == verses[k].verseNumber
  {
    seq(|verses|, k requires 0 <= k < |verses| => verses[k].verseNumber)
  }

  /**
   * Everything the groups sent, in sending order: `Concat` of the groups'
   * texts, folded over the groups themselves so that the loop proofs need not
   * relate a sequence of texts to the sequence of groups.
   */
  function SentText(groups: seq<Group>): string
  {
    if groups == [] then "" else SentText(groups[..|groups| - 1]) + groups[|groups| - 1].text
  }

  /** Python's `xs[j]`, where a negative `j` counts from the end. */
  function PyAt<T>(xs: seq<T>, j: int): (x: T)
    requires -|xs| <= j < |xs|
    ensures j >= 0 ==> x == xs[j]
    ensures j < 0 ==> x == xs[|xs| + j]
  {
    if j < 0 then xs[|xs| + j] else xs[j]
  }

  /**
   * The tag of a group that ends before line `end`: the number of Python's
   * `verses[end - 1]`, which for `end == 0` is the last verse of the chapter.
   */
  function TagAt(numbers: seq<int>, end: nat): int
    requires 0 < |numbers| && end <= |numbers|
  {
    PyAt(numbers, end - 1)
  }

  /** Where group `k` starts: where group `k - 1` ended. */
  function GroupStart(ends: seq<nat>, k: nat): nat
    requires k < |ends|
  {
    if k == 0 then 0 else ends[k - 1]
  }

  /** Every verse line has at least its newline. */
  ghost predicate NonEmptyLines(lines: seq<string>)
  {
    forall k :: 0 <= k < |lines| ==> |lines[k]| > 0
  }

  lemma LinesNonEmpty(verses: seq<Verse>)
    ensures NonEmptyLines(Lines(verses))
  {
  }

  /** Concatenating non-empty strings gives at least one character per string. */
  lemma {:induction false} ConcatLength(ss: seq<string>)
    requires forall k :: 0 <= k < |ss| ==> |ss[k]| > 0
    ensures |Concat(ss)| >= |ss|
  {
    if ss != [] {
      ConcatLength(ss[..|ss| - 1]);
    }
  }

  /** A slice of non-empty lines concatenates to at least one character per line. */
  lemma SliceLength(lines: seq<string>, a: nat, b: nat)
    requires NonEmptyLines(lines) && a <= b <= |lines|
    ensures |Concat(lines[a..b])| >= b - a
  {
    ConcatLength(lines[a..b]);
  }

  /**
   * The loop's variables after the first `n` lines (`text` is the buffer),
   * with the bookkeeping no variable of the loop holds: where each group
   * ended and where the buffer started.
   */
  datatype LoopState = LoopState(groups: seq<Group>, text: string, ends: seq<nat>, start: nat)

  /**
   * Turn `i` of the loop over the verse lines and the verse numbers: if line
   * `i` would push the buffer past the limit, send the buffer tagged with
   * Python's `verses[i - 1]` and empty it; then add line `i`.
   */
  function Turn(lines: seq<string>, numbers: seq<int>, st: LoopState, i: nat): LoopState
    requires i < |lines| == |numbers|
  {
    if |st.text + lines[i]| > MaxGroupLength then
      LoopState(st.groups + [Group(st.text, PyAt(numbers, i - 1))], "" + lines[i], st.ends + [i], i)
    else
      LoopState(st.groups, st.text + lines[i], st.ends, st.start)
  }

  /** The loop's state after `n` turns. */
  function Run(lines: seq<string>, numbers: seq<int>, n: nat): LoopState
    requires n <= |lines| == |numbers|
    decreases n
  {
    if n == 0 then LoopState([], "", [], 0) else Turn(lines, numbers, Run(lines, numbers, n - 1), n - 1)
  }

  /** The groups of the loop, then the non-empty remainder tagged with Python's `verses[-1]`. */
  function GroupLines(lines: seq<string>, numbers: seq<int>): seq<Group>
    requires |lines| == |numbers|
  {
    var st := Run(lines, numbers, |lines|);
    if |st.text| > 0 then st.groups + [Group(st.text, PyAt(numbers, -1))] else st.groups
  }

  /** Where each of `GroupLines(lines, numbers)` ends. */
  function EndLines(lines: seq<string>, numbers: seq<int>): seq<nat>
    requires |lines| == |numbers|
  {
    var st := Run(lines, numbers, |lines|);
    if |st.text| > 0 then st.ends + [|lines|] else st.ends
  }

  /** What `show_surah` sends for the chapter. */
  function Groups(verses: seq<Verse>): seq<Group>
  {
    GroupLines(Lines(verses), Numbers(verses))
  }

  /** Where each of `Groups(verses)` ends. */
  function Ends(verses: seq<Verse>): seq<nat>
  {
    EndLines(Lines(verses), Numbers(verses))
  }

  /**
   * The loop's invariant after `n` turns: the buffer holds the lines since
   * the last flush, which is where the last group ended; it is within the
   * limit or a single line; and the groups sent and the buffer together are
   * the first `n` lines.
   */
  ghost predicate Buffered(lines: seq<string>, st: LoopState, n: nat)
  {
    && st.start <= n <= |lines|
    && |st.ends| == |st.groups|
    && (|st.ends| == 0 ==> st.start == 0)
    && (|st.ends| > 0 ==> st.ends[|st.ends| - 1] == st.start)
    && (n == 0 ==> st.groups == [])
    && (n > 0 ==> st.start < n)
    && st.text == Concat(lines[st.start..n])
    && (|st.text| <= MaxGroupLength || n - st.start == 1)
    && SentText(st.groups) + st.text == Concat(lines[..n])
  }

  /** Sending one more group adds its text at the end of what was sent. */
  lemma SentTextAppend(groups: seq<Group>, g: Group)
    ensures SentText(groups + [g]) == SentText(groups) + g.text
  {
    assert (groups + [g])[..|groups|] == groups;
  }

  /** Line `i` after the first `i` lines gives the first `i + 1`. */
  lemma LinesExtend(lines: seq<string>, a: nat, i: nat)
    requires a <= i < |lines|
    ensures Concat(lines[a..i + 1]) == Concat(lines[a..i]) + lines[i]
    ensures Concat(lines[..i + 1]) == Concat(lines[..i]) + lines[i]
    ensures Concat(lines[i..i + 1]) == lines[i]
  {
    ConcatExtend(lines, a, i);
    ConcatExtend(lines, 0, i);
    assert lines[0..i] == lines[..i] && lines[0..i + 1] == lines[..i + 1];
    assert lines[i..i + 1] == [lines[i]];
  }

  /** One turn keeps the invariant. */
  lemma TurnBuffered(lines: seq<string>, numbers: seq<int>, st: LoopState, i: nat)
    requires i < |lines| == |numbers| && Buffered(lines, st, i)
    ensures Buffered(lines, Turn(lines, numbers, st, i), i + 1)
  {
    LinesExtend(lines, st.start, i);
    assert SentText(st.groups) + (st.text + lines[i]) == (SentText(st.groups) + st.text) + lines[i];
    if |st.text + lines[i]| > MaxGroupLength {
      SentTextAppend(st.groups, Group(st.text, PyAt(numbers, i - 1)));
      assert "" + lines[i] == lines[i];
    }
  }

  /** Every turn of the loop keeps its invariant. */
  lemma {:induction false} RunBuffered(lines: seq<string>, numbers: seq<int>, n: nat)
    requires n <= |lines| == |numbers|
    ensures Buffered(lines, Run(lines, numbers, n), n)
  {
    if n == 0 {
      assert lines[0..0] == [] && lines[..0] == [];
    } else {
      RunBuffered(lines, numbers, n - 1);
      TurnBuffered(lines, numbers, Run(lines, numbers, n - 1), n - 1);
    }
  }

  /**
   * Group `k` holds the lines from the end of group `k - 1` (or the first
   * line) to `ends[k]`, is tagged with Python's `verses[ends[k] - 1]`, is
   * within the limit or a single line, and is empty only when it is a first
   * group flushed before any line was added.
   */
  ghost predicate GroupOk(lines: seq<string>, numbers: seq<int>, groups: seq<Group>, ends: seq<nat>, k: nat)
    requires |ends| == |groups| && k < |groups|
  {
    var s, e := GroupStart(ends, k), ends[k];
    && s <= e <= |lines| == |numbers| && 0 < |lines|
    && groups[k].text == Concat(lines[s..e])
    && groups[k].lastVerse == TagAt(numbers, e)
    && (|groups[k].text| <= MaxGroupLength || e - s == 1)
    && (groups[k].text == "" <==> s == e)
    && (s == e ==> k == 0 && e == 0)
  }

  /** Group `k` was sent because line `ends[k]` would have pushed it past the limit. */
  ghost predicate Flushed(lines: seq<string>, groups: seq<Group>, ends: seq<nat>, k: nat)
    requires |ends| == |groups| && k < |groups|
  {
    ends[k] < |lines| && |groups[k].text| + |lines[ends[k]]| > MaxGroupLength
  }

  /** Sending another group leaves the earlier ones as they were. */
  lemma KeepGroup(lines: seq<string>, numbers: seq<int>, groups: seq<Group>, ends: seq<nat>, g: Group, e: nat, k: nat)
    requires |ends| == |groups| && k < |groups|
    requires GroupOk(lines, numbers, groups, ends, k) && Flushed(lines, groups, ends, k)
    ensures GroupOk(lines, numbers, groups + [g], ends + [e], k) && Flushed(lines, groups + [g], ends + [e], k)
  {
    assert (groups + [g])[k] == groups[k] && (ends + [e])[k] == ends[k];
    assert GroupStart(ends + [e], k) == GroupStart(ends, k);
  }

  /** The buffer flushed at turn `i`, because line `i` would not fit, is cut as `GroupOk` says. */
  lemma NewGroup(lines: seq<string>, numbers: seq<int>, st: LoopState, i: nat)
    requires NonEmptyLines(lines) && i < |lines| == |numbers| && Buffered(lines, st, i)
    requires |st.text| + |lines[i]| > MaxGroupLength
    ensures var groups', ends' := st.groups + [Group(st.text, TagAt(numbers, i))], st.ends + [i];
      GroupOk(lines, numbers, groups', ends', |st.groups|) && Flushed(lines, groups', ends', |st.groups|)
  {
    var ends' := st.ends + [i];
    assert GroupStart(ends', |st.groups|) == st.start;
    SliceLength(lines, st.start, i);
  }

  /** One turn keeps every group sent so far, and a group it sends is cut as `GroupOk` says. */
  lemma TurnGroup(lines: seq<string>, numbers: seq<int>, st: LoopState, i: nat, k: nat)
    requires NonEmptyLines(lines) && i < |lines| == |numbers| && Buffered(lines, st, i)
    requires k < |st.groups| ==> GroupOk(lines, numbers, st.groups, st.ends, k) && Flushed(lines, st.groups, st.ends, k)
    requires k < |Turn(lines, numbers, st, i).groups|
    ensures var st' := Turn(lines, numbers, st, i);
      |st'.ends| == |st'.groups| && GroupOk(lines, numbers, st'.groups, st'.ends, k) && Flushed(lines, st'.groups, st'.ends, k)
  {
    if |st.text + lines[i]| > MaxGroupLength {
      if k < |st.groups| {
        KeepGroup(lines, numbers, st.groups, st.ends, Group(st.text, TagAt(numbers, i)), i, k);
      } else {
        NewGroup(lines, numbers, st, i);
      }
    }
  }

  /** Every group the loop has sent after `n` turns is cut as `GroupOk` says and was flushed only when full. */
  lemma {:induction false} RunGroup(lines: seq<string>, numbers: seq<int>, n: nat, k: nat)
    requires NonEmptyLines(lines) && n <= |lines| == |numbers| && k < |Run(lines, numbers, n).groups|
    ensures var st := Run(lines, numbers, n);
      |st.ends| == |st.groups| && GroupOk(lines, numbers, st.groups, st.ends, k) && Flushed(lines, st.groups, st.ends, k)
  {
    var st := Run(lines, numbers, n - 1);
    RunBuffered(lines, numbers, n - 1);
    if k < |st.groups| {
      RunGroup(lines, numbers, n - 1, k);
    }
    TurnGroup(lines, numbers, st, n - 1, k);
    assert Run(lines, numbers, n) == Turn(lines, numbers, st, n - 1);
  }

  /**
   * What `show_surah` sends for a whole chapter: consecutive runs of lines
   * ending with the last line, each cut as `GroupOk` says, each but the last
   * flushed only because the next line would not fit.
   */
  ghost predicate Grouped(lines: seq<string>, numbers: seq<int>, groups: seq<Group>, ends: seq<nat>)
  {
    && |ends| == |groups|
    && (|groups| > 0 ==> ends[|ends| - 1] == |lines|)
    && forall k :: 0 <= k < |groups| ==>
         GroupOk(lines, numbers, groups, ends, k) && (k < |groups| - 1 ==> Flushed(lines, groups, ends, k))
  }

  /** The groups lose nothing and keep the order, and there are none only when there are no lines. */
  lemma LinesText(lines: seq<string>, numbers: seq<int>)
    requires NonEmptyLines(lines) && |lines| == |numbers|
    ensures lines == [] <==> GroupLines(lines, numbers) == []
    ensures SentText(GroupLines(lines, numbers)) == Concat(lines)
  {
    var st := Run(lines, numbers, |lines|);
    RunBuffered(lines, numbers, |lines|);
    assert lines[..|lines|] == lines;
    SliceLength(lines, st.start, |lines|);
    if |st.text| > 0 {
      SentTextAppend(st.groups, Group(st.text, PyAt(numbers, -1)));
    }
  }

  /** Group `k` is cut as `GroupOk` says, and was flushed only when full unless it is the last. */
  lemma LinesGroup(lines: seq<string>, numbers: seq<int>, k: nat)
    requires NonEmptyLines(lines) && |lines| == |numbers| && k < |GroupLines(lines, numbers)|
    ensures var groups, ends := GroupLines(lines, numbers), EndLines(lines, numbers);
      && |ends| == |groups| && ends[|ends| - 1] == |lines|
      && GroupOk(lines, numbers, groups, ends, k)
      && (k < |groups| - 1 ==> Flushed(lines, groups, ends, k))
  {
    var st := Run(lines, numbers, |lines|);
    var groups, ends := GroupLines(lines, numbers), EndLines(lines, numbers);
    RunBuffered(lines, numbers, |lines|);
    SliceLength(lines, st.start, |lines|);
    // with at least one line, the buffer is never empty when the loop ends
    assert |st.text| > 0;
    if k < |st.groups| {
      RunGroup(lines, numbers, |lines|, k);
      assert groups[k] == st.groups[k] && ends[k] == st.ends[k];
      assert GroupStart(ends, k) == GroupStart(st.ends, k);
    } else {
      assert GroupStart(ends, k) == st.start;
    }
  }

  /** The groups of a chapter lose nothing and keep the order, and are empty only for a chapter without verses. */
  lemma GroupsText(verses: seq<Verse>)
    ensures verses == [] <==> Groups(verses) == []
    ensures SentText(Groups(verses)) == Concat(Lines(verses))
  {
    LinesNonEmpty(verses);
    LinesText(Lines(verses), Numbers(verses));
  }

  /** All groups of a chapter are cut as `Grouped` says. */
  lemma GroupsCut(verses: seq<Verse>)
    ensures Grouped(Lines(verses), Numbers(verses), Groups(verses), Ends(verses))
  {
    var lines, numbers := Lines(verses), Numbers(verses);
    var groups, ends := Groups(verses), Ends(verses);
    LinesNonEmpty(verses);
    forall k | 0 <= k < |groups|
      ensures |ends| == |groups|
      ensures GroupOk(lines, numbers, groups, ends, k) && (k < |groups| - 1 ==> Flushed(lines, groups, ends, k))
    {
      LinesGroup(lines, numbers, k);
    }
    if |groups| > 0 {
      LinesGroup(lines, numbers, 0);
    } else {
      LinesText(lines, numbers);
    }
  }

  /**
   * The first group is empty exactly when the first line alone is over the
   * limit; it is then tagged with the last verse.
   */
  lemma FirstGroupLines(lines: seq<string>, numbers: seq<int>)
    requires NonEmptyLines(lines) && 0 < |lines| == |numbers|
    ensures GroupLines(lines, numbers) != []
    ensures GroupLines(lines, numbers)[0].text == "" <==> |lines[0]| > MaxGroupLength
    ensures GroupLines(lines, numbers)[0].text == "" ==> GroupLines(lines, numbers)[0].lastVerse == numbers[|numbers| - 1]
  {
    LinesText(lines, numbers);
    LinesGroup(lines, numbers, 0);
    var groups, ends := GroupLines(lines, numbers), EndLines(lines, numbers);
    if groups[0].text == "" {
      assert ends[0] == 0 && |groups| > 1;
      assert Flushed(lines, groups, ends, 0);
    } else if |lines[0]| > MaxGroupLength {
      // the first turn sends the empty buffer, so this case does not arise
      assert Run(lines, numbers, 1).groups == [Group("", PyAt(numbers, -1))];
      RunPrefix(lines, numbers, 1, |lines|);
    }
  }

  /** The loop only ever appends groups: those sent after `m` turns are still the first ones after `n`. */
  lemma {:induction false} RunPrefix(lines: seq<string>, numbers: seq<int>, m: nat, n: nat)
    requires m <= n <= |lines| == |numbers|
    ensures |Run(lines, numbers, m).groups| <= |Run(lines, numbers, n).groups|
    ensures Run(lines, numbers, n).groups[..|Run(lines, numbers, m).groups|] == Run(lines, numbers, m).groups
  {
    if m < n {
      RunPrefix(lines, numbers, m, n - 1);
      var a, b := Run(lines, numbers, m).groups, Run(lines, numbers, n - 1).groups;
      var c := Run(lines, numbers, n).groups;
      assert c[..|b|] == b;
      assert c[..|a|] == b[..|a|];
    }
  }

  /**
   * The first group of a chapter is empty exactly when the first verse line
   * alone is over the limit; it is then tagged with the chapter's last verse.
   */
  lemma FirstGroupEmpty(verses: seq<Verse>)
    requires verses != []
    ensures Groups(verses) != []
    ensures Groups(verses)[0].text == "" <==> |Line(verses[0])| > MaxGroupLength
    ensures Groups(verses)[0].text == "" ==> Groups(verses)[0].lastVerse == verses[|verses| - 1].verseNumber
  {
    LinesNonEmpty(verses);
    FirstGroupLines(Lines(verses), Numbers(verses));
  }

  /** What turn `i` of the loop reads from the verses: line `i` and Python's `verses[i - 1]`. */
  lemma VerseAt(verses: seq<Verse>, i: int)
    requires 0 <= i < |verses| || i == |verses| > 0
    ensures |Lines(verses)| == |Numbers(verses)| == |verses|
    ensures i < |verses| ==> Lines(verses)[i] == Line(verses[i])
    ensures PyAt(Numbers(verses), i - 1) == PyAt(verses, i - 1).verseNumber
  {
  }

  /** The grouping loop of `show_surah`: it sends exactly `Groups(verses)`. */
  method GroupVerses(verses: seq<Verse>) returns (groups: seq<Group>)
    ensures groups == Groups(verses)
  {
    ghost var lines, numbers := Lines(verses), Numbers(verses);
    groups := [];
    var text := "";
    var i := 0;
    while i < |verses|
      invariant i <= |verses|
      invariant groups == Run(lines, numbers, i).groups && text == Run(lines, numbers, i).text
    {
      var verseText := Line(verses[i]);
      VerseAt(verses, i);
      if |text + verseText| > MaxGroupLength {
        // Python's verses[i - 1]: at i == 0 this is the last verse
        groups := groups + [Group(text, PyAt(verses, i - 1).verseNumber)];
        text := "";
      }
      text := text + verseText;
      i := i + 1;
    }
    if |text| > 0 {
      VerseAt(verses, 0);
      groups := groups + [Group(text, PyAt(verses, -1).verseNumber)];
    }
  }
}
