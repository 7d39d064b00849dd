/**
 Stitching a job's live log onto its log file (panel/public/assets/components.js, openJobLog): live
 batches lag the file, so a batch may begin with lines the pane already shows.
 */
module LogStitch {
  import opened Basics

  type Line = string

  /** How many lines the end of the pane is remembered for. */
  const WINDOW: nat := 200

  function Last(lines: seq<Line>, n: nat): (r: seq<Line>)
    ensures |r| <= n && |r| <= |lines| && r == lines[|lines| - |r|..]
  {
    if |lines| <= n then lines else lines[|lines| - n..]
  }

  /** The last k lines of `tail` are the first k of `lines`. */
  predicate Overlaps(tail: seq<Line>, lines: seq<Line>, k: nat) {
    k <= |tail| && k <= |lines| && tail[|tail| - k..] == lines[..k]
  }

  /** The longest overlap of at most k lines. */
  function Longest(tail: seq<Line>, lines: seq<Line>, k: nat): (r: nat)
    requires k <= |tail| && k <= |lines|
    ensures r <= k && Overlaps(tail, lines, r)
    ensures forall j | r < j <= k :: !Overlaps(tail, lines, j)
  {
    if k == 0 || Overlaps(tail, lines, k) then k else Longest(tail, lines, k - 1)
  }

  function Fresh(tail: seq<Line>, lines: seq<Line>): seq<Line> {
    lines[Longest(tail, lines, Min(|lines|, |tail|))..]
  }

  /** What is added of a batch. `late`: the few seconds in which batches are compared with the tail are over. */
  function Unseen(tail: seq<Line>, lines: seq<Line>, late: bool): seq<Line> {
    if late || tail == [] then lines else Fresh(tail, lines)
  }

  method DropOverlap(tail: seq<Line>, lines: seq<Line>, late: bool) returns (unseen: seq<Line>)
    ensures unseen == Unseen(tail, lines, late)
  {
    if late || |tail| == 0 {
      return lines;
    }
    var k := Min(|lines|, |tail|);
    while k > 0
      invariant 0 <= k <= Min(|lines|, |tail|)
      invariant Longest(tail, lines, Min(|lines|, |tail|)) == Longest(tail, lines, k)
    {
      var same := true;
      var i := 0;
      while i < k
        invariant 0 <= i <= k
        invariant same && forall j | 0 <= j < i :: tail[|tail| - k + j] == lines[j]
      {
        if tail[|tail| - k + i] != lines[i] {
          same := false;
          break;
        }
        i := i + 1;
      }
      OverlapByLine(tail, lines, k);
      if same {
        return lines[k..];
      }
      k := k - 1;
    }
    return lines;
  }

  lemma OverlapByLine(tail: seq<Line>, lines: seq<Line>, k: nat)
    requires k <= |tail| && k <= |lines|
    ensures Overlaps(tail, lines, k) <==> forall j | 0 <= j < k :: tail[|tail| - k + j] == lines[j]
  {
    var end, start := tail[|tail| - k..], lines[..k];
    assert forall j | 0 <= j < k :: end[j] == tail[|tail| - k + j] && start[j] == lines[j];
  }

  predicate ContainsAt(hay: seq<Line>, needle: seq<Line>, j: nat) {
    j + |needle| <= |hay| && hay[j..j + |needle|] == needle
  }

  /** One contiguous run of `hay` is `needle`. */
  predicate Contains(hay: seq<Line>, needle: seq<Line>) {
    exists j :: 0 <= j <= |hay| && ContainsAt(hay, needle, j)
  }

  lemma ContainsByLine(hay: seq<Line>, needle: seq<Line>, j: nat)
    requires j + |needle| <= |hay|
    ensures ContainsAt(hay, needle, j) <==> forall h | 0 <= h < |needle| :: hay[j + h] == needle[h]
  {
    var part := hay[j..j + |needle|];
    assert forall h | 0 <= h < |needle| :: part[h] == hay[j + h];
    if forall h | 0 <= h < |needle| :: hay[j + h] == needle[h] {
      assert part == needle;
    }
  }

  method ContainedIn(hay: seq<Line>, needle: seq<Line>) returns (found: bool)
    ensures found <==> Contains(hay, needle)
  {
    var j := |hay| - |needle|;
    while j >= 0
      invariant j <= |hay| - |needle|
      invariant forall h | h > j && h >= 0 :: !ContainsAt(hay, needle, h)
      decreases j + 1
    {
      var same := true;
      var i := 0;
      while i < |needle|
        invariant 0 <= i <= |needle|
        invariant same && forall h | 0 <= h < i :: hay[j + h] == needle[h]
      {
        if hay[j + i] != needle[i] {
          same := false;
          break;
        }
        i := i + 1;
      }
      ContainsByLine(hay, needle, j);
      if same {
        return true;
      }
      j := j - 1;
    }
    return false;
  }

  /** The log painted when the file has loaded, with the lines that arrived meanwhile. */
  function Painted(file: seq<Line>, buffered: seq<Line>): seq<Line> {
    var tail := Last(file, WINDOW);
    file + if buffered != [] && Contains(tail, buffered) then [] else Unseen(tail, buffered, false)
  }

  method PaintLog(file: seq<Line>, buffered: seq<Line>) returns (pane: seq<Line>, tail: seq<Line>)
    ensures pane == Painted(file, buffered) && tail == Last(pane, WINDOW)
  {
    tail := Last(file, WINDOW);
    var contained := false;
    if |buffered| > 0 {
      contained := ContainedIn(tail, buffered);
    }
    var extra: seq<Line> := [];
    if !contained {
      extra := DropOverlap(tail, buffered, false);
    }
    pane := file + extra;
    tail := Last(pane, WINDOW);
  }

  // ---------------------------------------------------------------- nothing lost, nothing twice

  lemma StitchEndsWith(tail: seq<Line>, lines: seq<Line>, k: nat)
    requires Overlaps(tail, lines, k)
    ensures EndsWith(tail + lines[k..], lines)
  {
    var s := tail + lines[k..];
    assert s[|s| - |lines|..] == tail[|tail| - k..] + lines[k..];
    assert lines == lines[..k] + lines[k..];
  }

  /** Something shorter than both together overlaps them. */
  lemma ShortMeansOverlap(tail: seq<Line>, lines: seq<Line>, r: seq<Line>)
    requires tail <= r && EndsWith(r, lines) && |r| < |tail| + |lines|
    ensures Overlaps(tail, lines, |tail| + |lines| - |r|)
  {
    var j := |tail| + |lines| - |r|;
    assert tail[|tail| - j..] == r[|r| - |lines|..|tail|];
    assert r[|r| - |lines|..|tail|] == r[|r| - |lines|..][..j];
  }

  /**
   The stitched pane is the shortest sequence that starts with the tail and ends with the batch: it has
   both, and anything that has both is at least as long.
   */
  lemma StitchShortest(tail: seq<Line>, lines: seq<Line>, r: seq<Line>)
    ensures tail <= tail + Fresh(tail, lines) && EndsWith(tail + Fresh(tail, lines), lines)
    ensures tail <= r && EndsWith(r, lines) ==> |tail + Fresh(tail, lines)| <= |r|
  {
    hide Overlaps, EndsWith;
    var k := Longest(tail, lines, Min(|lines|, |tail|));
    StitchEndsWith(tail, lines, k);
    if tail <= r && EndsWith(r, lines) && |r| < |tail| + |lines| {
      ShortMeansOverlap(tail, lines, r);
    }
  }

  lemma ContainsIn(hay: seq<Line>, needle: seq<Line>, before: seq<Line>, after: seq<Line>)
    requires Contains(hay, needle)
    ensures Contains(before + hay + after, needle)
  {
    var j :| 0 <= j <= |hay| && ContainsAt(hay, needle, j);
    var all := before + hay + after;
    assert all[|before| + j..|before| + j + |needle|] == hay[j..j + |needle|];
    assert ContainsAt(all, needle, |before| + j);
  }

  lemma EndIsContained(r: seq<Line>, lines: seq<Line>)
    requires EndsWith(r, lines)
    ensures Contains(r, lines)
  {
    assert ContainsAt(r, lines, |r| - |lines|);
  }

  /** The log painted on load starts with the file and contains the buffered batch as one run. */
  lemma PaintedKeepsBoth(file: seq<Line>, buffered: seq<Line>)
    ensures file <= Painted(file, buffered) && Contains(Painted(file, buffered), buffered)
  {
    hide Contains, EndsWith, Fresh;
    var tail := Last(file, WINDOW);
    var head := file[..|file| - |tail|];
    assert file == head + tail;
    if buffered != [] && Contains(tail, buffered) {
      ContainsIn(tail, buffered, head, []);
      assert head + tail + [] == Painted(file, buffered);
    } else if tail == [] {
      assert file + buffered == buffered;
      EndIsContained(buffered, buffered);
    } else {
      StitchShortest(tail, buffered, []);
      EndIsContained(tail + Fresh(tail, buffered), buffered);
      ContainsIn(tail + Fresh(tail, buffered), buffered, head, []);
      assert head + (tail + Fresh(tail, buffered)) + [] == Painted(file, buffered);
    }
  }

  lemma CutAtEnd(r: seq<Line>, needle: seq<Line>) returns (cut: seq<Line>)
    requires Contains(r, needle)
    ensures cut <= r && EndsWith(cut, needle)
  {
    var j :| 0 <= j <= |r| && ContainsAt(r, needle, j);
    cut := r[..j + |needle|];
    assert cut[|cut| - |needle|..] == r[j..j + |needle|];
  }

  /** A file no longer than the window: the painted log is the shortest that starts with it and contains the batch. */
  lemma PaintedShortest(file: seq<Line>, buffered: seq<Line>, r: seq<Line>)
    requires |file| <= 200 && file <= r && Contains(r, buffered)
    ensures |Painted(file, buffered)| <= |r|
  {
    hide Contains, ContainsAt, EndsWith, Longest;
    var cut := CutAtEnd(r, buffered);
    if |cut| < |file| {
      var rest := file[|cut|..];
      assert cut == file[..|cut|] && file == [] + cut + rest;
      EndIsContained(cut, buffered);
      ContainsIn(cut, buffered, [], rest);
    } else {
      assert file <= cut;
      StitchShortest(file, buffered, cut);
      assert |buffered| <= |cut| by { EndLength(cut, buffered); }
    }
  }

  lemma EndLength(r: seq<Line>, lines: seq<Line>)
    requires EndsWith(r, lines)
    ensures |lines| <= |r|
  {
  }

  /**
   For any log: when the first `t` lines of a batch really are the last ones of the tail, exactly the rest
   is added if and only if no longer start of the batch looks the same as an end of the tail.
   */
  lemma ExactlyTheRestIff(tail: seq<Line>, lines: seq<Line>, t: nat)
    requires Overlaps(tail, lines, t)
    ensures Fresh(tail, lines) == lines[t..] <==> forall k | t < k <= Min(|lines|, |tail|) :: !Overlaps(tail, lines, k)
  {
    hide Overlaps;
    var k := Longest(tail, lines, Min(|lines|, |tail|));
    OverlapIsShort(tail, lines, t);
    assert t <= k;
    if t < k {
      assert Overlaps(tail, lines, k) && |lines[k..]| < |lines[t..]|;
    }
  }

  lemma OverlapIsShort(tail: seq<Line>, lines: seq<Line>, t: nat)
    requires Overlaps(tail, lines, t)
    ensures t <= |tail| && t <= |lines|
  {
  }

  /**
   A batch equal to the end of the tail adds nothing, although nothing tells whether the job printed those
   lines once or twice: a job that repeats itself at that moment loses the repetition.
   */
  lemma RepeatedBatchIsLost(tail: seq<Line>, lines: seq<Line>)
    requires EndsWith(tail, lines)
    ensures Overlaps(tail, lines, 0) && Overlaps(tail, lines, |lines|) && Fresh(tail, lines) == []
  {
    assert tail[|tail|..] == [] == lines[..0];
    assert lines[..|lines|] == lines;
    assert Overlaps(tail, lines, |lines|);
    hide Overlaps;
  }

  // ---------------------------------------------------------------- the whole pane

  /** A log in which no line occurs twice, as with time stamps. */
  ghost predicate Distinct(log: seq<Line>) {
    forall i, j | 0 <= i < j < |log| :: log[i] != log[j]
  }

  /** A live batch: where in the log it ends, and whether it comes when batches are no longer compared. */
  datatype Batch = Batch(end: nat, late: bool)

  /** Batches follow one another without gap or overlap, none of them empty. */
  predicate Rising(from: nat, batches: seq<Batch>, end: nat)
    decreases |batches|
  {
    from <= end && (batches == [] || (from < batches[0].end <= end && Rising(batches[0].end, batches[1..], end)))
  }

  function EndOf(from: nat, batches: seq<Batch>): nat
    decreases |batches|
  {
    if batches == [] then from else EndOf(batches[0].end, batches[1..])
  }

  /** The pane as one batch after the other comes in; the tail stays the one from loading. */
  function Shown(log: seq<Line>, tail: seq<Line>, pane: seq<Line>, from: nat, batches: seq<Batch>): seq<Line>
    requires Rising(from, batches, |log|)
    decreases |batches|
  {
    if batches == [] then pane
    else
      var b := batches[0];
      Shown(log, tail, pane + Unseen(tail, log[from..b.end], b.late), b.end, batches[1..])
  }

  lemma {:induction false} EndInLog(from: nat, batches: seq<Batch>, end: nat)
    requires Rising(from, batches, end)
    ensures from <= EndOf(from, batches) <= end && (batches != [] ==> from < EndOf(from, batches))
    decreases |batches|
  {
    if batches != [] {
      EndInLog(batches[0].end, batches[1..], end);
    }
  }

  lemma EndOfTail(log: seq<Line>, n: nat, k: nat)
    requires n <= |log| && k <= |Last(log[..n], WINDOW)|
    ensures var tail := Last(log[..n], WINDOW); tail[|tail| - k..] == log[n - k..n]
  {
    var tail := Last(log[..n], WINDOW);
    assert tail == log[n - |tail|..n];
  }

  /** With no line twice two runs of one length are the same only in the same place. */
  lemma SameRun(log: seq<Line>, a: nat, b: nat, k: nat)
    requires Distinct(log) && a + k <= |log| && b + k <= |log| && k > 0
    ensures log[a..a + k] == log[b..b + k] <==> a == b
  {
    assert log[a..a + k][0] == log[a] && log[b..b + k][0] == log[b];
  }

  /** With no line twice the overlap found is the true one, if the batch reaches the end of what is shown. */
  lemma TrueOverlap(log: seq<Line>, n: nat, p: nat, q: nat, k: nat)
    requires Distinct(log) && p < q <= |log| && n <= |log|
    requires var tail := Last(log[..n], WINDOW); k <= |tail| && k <= q - p
    ensures Overlaps(Last(log[..n], WINDOW), log[p..q], k) <==> k == 0 || (p <= n && k == n - p)
  {
    hide Distinct, Last;
    EndOfTail(log, n, k);
    assert log[p..q][..k] == log[p..p + k];
    if k > 0 {
      SameRun(log, n - k, p, k);
    }
  }

  /** What is added of log[p..q] when the first `n` lines are shown. */
  lemma UnseenIs(log: seq<Line>, n: nat, p: nat, q: nat, late: bool)
    requires Distinct(log) && p < q <= |log| && n <= |log|
    ensures Unseen(Last(log[..n], WINDOW), log[p..q], late) ==
              if !late && p <= n <= q && n - p <= WINDOW then log[n..q] else log[p..q]
  {
    hide Overlaps, Distinct;
    var tail, batch := Last(log[..n], WINDOW), log[p..q];
    var k := Longest(tail, batch, Min(|batch|, |tail|));
    TrueOverlap(log, n, p, q, k);
    if p <= n <= q && n - p <= WINDOW {
      assert n - p <= |tail|;
      TrueOverlap(log, n, p, q, n - p);
      assert k == n - p;
      assert batch[n - p..] == log[n..q];
    } else {
      assert k == 0;
    }
  }

  /** Batches that begin where the shown lines end, or later, are shown as they are. */
  lemma {:induction false} LaterBatches(log: seq<Line>, n: nat, pane: seq<Line>, from: nat, batches: seq<Batch>)
    requires Distinct(log) && n <= from && Rising(from, batches, |log|)
    ensures from <= EndOf(from, batches) <= |log|
    ensures Shown(log, Last(log[..n], WINDOW), pane, from, batches) == pane + log[from..EndOf(from, batches)]
    decreases |batches|
  {
    hide Distinct, Unseen;
    EndInLog(from, batches, |log|);
    if batches != [] {
      var b, end := batches[0], EndOf(from, batches);
      UnseenIs(log, n, from, b.end, b.late);
      LaterBatches(log, n, pane + log[from..b.end], b.end, batches[1..]);
      assert pane + log[from..b.end] + log[b.end..end] == pane + log[from..end];
    }
  }

  lemma {:induction false} ShownExtends(log: seq<Line>, tail: seq<Line>, pane: seq<Line>, from: nat, batches: seq<Batch>)
    requires Rising(from, batches, |log|)
    ensures pane <= Shown(log, tail, pane, from, batches)
    decreases |batches|
  {
    hide Unseen;
    if batches != [] {
      var b := batches[0];
      ShownExtends(log, tail, pane + Unseen(tail, log[from..b.end], b.late), b.end, batches[1..]);
    }
  }

  /** Shown lines followed by lines from elsewhere in the log are no beginning of it, and stay wrong. */
  lemma WrongStays(log: seq<Line>, n: nat, p: nat, q: nat, rest: seq<Line>, end: nat)
    requires Distinct(log) && n <= |log| && p < q <= |log| && p != n && end <= |log|
    requires log[..n] + log[p..q] <= rest
    ensures rest != log[..end]
  {
    assert (log[..n] + log[p..q])[n] == log[p] == rest[n];
    assert n < |log| ==> log[n] != log[p];
    if n < end {
      assert log[..end][n] == log[n];
    }
  }

  /**
   The first `n` lines are shown and live batches go on from line `from`: the pane ends up showing the log
   once, line for line, exactly when they follow on, or the first comes in time, begins within the window
   and reaches the end of what is shown. A batch that does not is shown again as a whole.
   */
  predicate FollowOn(n: nat, from: nat, batches: seq<Batch>) {
    batches == [] || from == n || (from < n && !batches[0].late && batches[0].end >= n && n - from <= 200)
  }

  lemma LiveLogExact(log: seq<Line>, n: nat, from: nat, batches: seq<Batch>)
    requires Distinct(log) && n <= |log| && from <= |log| && Rising(from, batches, |log|)
    ensures EndOf(from, batches) <= |log|
    ensures Shown(log, Last(log[..n], WINDOW), log[..n], from, batches) == log[..Max(n, EndOf(from, batches))] <==>
              FollowOn(n, from, batches) && (batches == [] ==> from <= n)
  {
    hide Distinct, Unseen;
    EndInLog(from, batches, |log|);
    if batches != [] {
      var tail, b, end := Last(log[..n], WINDOW), batches[0], EndOf(from, batches);
      EndInLog(b.end, batches[1..], |log|);
      UnseenIs(log, n, from, b.end, b.late);
      if FollowOn(n, from, batches) {
        assert log[..n] + log[n..b.end] == log[..b.end];
        LaterBatches(log, n, log[..b.end], b.end, batches[1..]);
        assert log[..b.end] + log[b.end..end] == log[..end];
      } else {
        assert from != n;
        var pane := log[..n] + log[from..b.end];
        ShownExtends(log, tail, pane, b.end, batches[1..]);
        WrongStays(log, n, from, b.end, Shown(log, tail, pane, b.end, batches[1..]), Max(n, end));
      }
    }
  }

  // ---------------------------------------------------------------- from loading to the end

  /** Lines buffered before the pane was painted are a run of the tail exactly when they lie within it. */
  lemma ContainedIff(log: seq<Line>, n: nat, p: nat, q: nat)
    requires Distinct(log) && n <= |log| && p < q <= |log|
    ensures Contains(Last(log[..n], WINDOW), log[p..q]) <==> q <= n && n - p <= WINDOW
  {
    var tail, batch := Last(log[..n], WINDOW), log[p..q];
    var start := n - |tail|;
    assert forall i | 0 <= i < |tail| :: tail[i] == log[start + i];
    if Contains(tail, batch) {
      var j :| 0 <= j <= |tail| && ContainsAt(tail, batch, j);
      assert tail[j..j + |batch|][0] == batch[0] == log[p];
      assert log[start + j] == log[p];
    }
    if q <= n && n - p <= WINDOW {
      assert p >= start;
      assert tail[p - start..q - start] == batch;
      assert ContainsAt(tail, batch, p - start);
    }
  }

  /** The buffered lines connect to the file: there are none and none are missing, or they begin in its window. */
  predicate Connects(n: nat, p: nat, q: nat) {
    if p == q then q <= n else p <= n && n - p <= 200
  }

  lemma PaintedIs(log: seq<Line>, n: nat, p: nat, q: nat)
    requires Distinct(log) && n <= |log| && p <= q <= |log|
    ensures Painted(log[..n], log[p..q]) ==
              if p == q then log[..n] else if Connects(n, p, q) then log[..Max(n, q)] else log[..n] + log[p..q]
  {
    hide Distinct, Contains, Fresh;
    var tail := Last(log[..n], WINDOW);
    if p == q {
      assert log[p..q] == [];
      FreshOfNone(tail);
      assert log[..n] + [] == log[..n];
    } else {
      hide Unseen;
      ContainedIff(log, n, p, q);
      UnseenIs(log, n, p, q, false);
      assert log[..n] + [] == log[..n];
      if n <= q {
        assert log[..n] + log[n..q] == log[..q];
      }
    }
  }

  lemma FreshOfNone(tail: seq<Line>)
    ensures Fresh(tail, []) == []
  {
  }

  /**
   From loading to the last batch. The log has no line twice; loading showed its first `n` lines and
   found lines p to q buffered, and live batches go on from q. The pane ends up showing the log once,
   line for line, exactly when the buffered lines connect to the file and the batches follow on.
   */
  lemma WholePaneExact(log: seq<Line>, n: nat, p: nat, q: nat, batches: seq<Batch>)
    requires Distinct(log) && n <= |log| && p <= q <= |log| && Rising(q, batches, |log|)
    ensures EndOf(q, batches) <= |log|
    ensures var pane := Painted(log[..n], log[p..q]);
            Shown(log, Last(pane, WINDOW), pane, q, batches) == log[..Max(n, EndOf(q, batches))] <==>
              Connects(n, p, q) && FollowOn(Max(n, q), q, batches)
  {
    hide Distinct, Painted, Shown;
    EndInLog(q, batches, |log|);
    PaintedIs(log, n, p, q);
    var pane, end := Painted(log[..n], log[p..q]), EndOf(q, batches);
    if Connects(n, p, q) {
      assert pane == log[..Max(n, q)];
      LiveLogExact(log, Max(n, q), q, batches);
    } else if p == q {
      LiveLogExact(log, n, q, batches);
    } else {
      ShownExtends(log, Last(pane, WINDOW), pane, q, batches);
      WrongStays(log, n, p, q, Shown(log, Last(pane, WINDOW), pane, q, batches), Max(n, end));
    }
  }
}
