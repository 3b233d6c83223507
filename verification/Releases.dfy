/** Releases in order (src/release.ts, compareReleases): by number, a candidate before its release, a
    snapshot after its line. */
module Releases {
  import opened Wrappers
  import opened Text

  /** A number of a release, or what no number reaches. */
  datatype Part = Whole(n: int) | Endless

  /** What a release is compared by, part after part, those missing counting as 0. */
  type Rank = seq<Part>

  // ----- A release's text -----

  function Lower(text: string): (lower: string)
    ensures |lower| == |text|
  {
    seq(|text|, i requires 0 <= i < |text| => if 'A' <= text[i] <= 'Z' then text[i] - 'A' + 'a' else text[i])
  }

  function TrimStart(text: string): string {
    if text != "" && IsSpace(text[0]) then TrimStart(text[1..]) else text
  }

  function TrimEnd(text: string): string {
    if text != "" && IsSpace(text[|text| - 1]) then TrimEnd(text[..|text| - 1]) else text
  }

  predicate EndsLine(c: char) {
    c == '\n' || c == '\r' || c == '\U{2028}' || c == '\U{2029}'
  }

  /** What stands before the first dash, and after it. */
  function Dashed(text: string): (string, Option<string>) {
    if text == "" then ("", None)
    else if text[0] == '-' then ("", Some(text[1..]))
    else
      var (head, rest) := Dashed(text[1..]);
      ([text[0]] + head, rest)
  }

  predicate AllDecimal(parts: seq<string>) {
    forall i :: 0 <= i < |parts| ==> IsDecimal(parts[i])
  }

  function Numbers(parts: seq<string>): Rank
    requires AllDecimal(parts)
  {
    seq(|parts|, i requires 0 <= i < |parts| => Whole(Number(parts[i])))
  }

  predicate HasSnapshot(text: string) {
    |text| >= 8 && (Lower(text[..8]) == "snapshot" || HasSnapshot(text[1..]))
  }

  /** A candidate's suffix: its number after `rc`. */
  function Candidate(suffix: string): Option<nat> {
    if |suffix| > 2 && Lower(suffix[..2]) == "rc" && IsDecimal(suffix[2..]) then Some(Number(suffix[2..])) else None
  }

  /** The numbers, with zeros up to four of them. */
  function Padded(numbers: Rank): Rank
    decreases if |numbers| >= 4 then 0 else 4 - |numbers|
  {
    if |numbers| >= 4 then numbers else Padded(numbers + [Whole(0)])
  }

  /** What a release with a suffix comes to. */
  function WithSuffix(numbers: Rank, suffix: string): Option<Rank> {
    if suffix == "" || (exists i :: 0 <= i < |suffix| && EndsLine(suffix[i])) then None
    else if HasSnapshot(suffix) then Some(numbers + [Endless])
    else if Candidate(suffix).Some? then Some(Padded(numbers) + [Whole(Candidate(suffix).value - 1000)])
    else None
  }

  function RankOf(version: string): Option<Rank> {
    if |version| >= 8 && Lower(version[..8]) == "snapshot" then Some([Endless])
    else
      var (head, suffix) := Dashed(TrimEnd(TrimStart(version)));
      var parts := Split(head, '.');
      if !AllDecimal(parts) then None
      else if suffix.None? then Some(Padded(Numbers(parts)) + [Whole(0)])
      else WithSuffix(Numbers(parts), suffix.value)
  }

  // ----- Comparing -----

  function PartAt(rank: Rank, i: nat): Part {
    if i < |rank| then rank[i] else Whole(0)
  }

  predicate PartLess(p: Part, q: Part) {
    p.Whole? && (q.Endless? || p.n < q.n)
  }

  function Longest(x: Rank, y: Rank): nat {
    if |x| > |y| then |x| else |y|
  }

  /** From the i-th part on: by the first that differs. */
  function CompareFrom(x: Rank, y: Rank, i: nat): int
    decreases Longest(x, y) - i
  {
    if i >= Longest(x, y) then 0
    else if PartAt(x, i) != PartAt(y, i) then (if PartLess(PartAt(x, i), PartAt(y, i)) then -1 else 1)
    else CompareFrom(x, y, i + 1)
  }

  /** -1, 0 or 1 as the first is older than, the same as or newer than the second; none if either is no
      release. */
  function Compared(a: string, b: string): Option<int> {
    if RankOf(a).None? || RankOf(b).None? then None else Some(CompareFrom(RankOf(a).value, RankOf(b).value, 0))
  }

  /** The loop that compares part by part. */
  method CompareReleases(a: string, b: string) returns (order: Option<int>)
    ensures order == Compared(a, b)
  {
    var x, y := RankOf(a), RankOf(b);
    if x.None? || y.None? { return None; }
    for i := 0 to Longest(x.value, y.value)
      invariant CompareFrom(x.value, y.value, 0) == CompareFrom(x.value, y.value, i)
    {
      var p, q := PartAt(x.value, i), PartAt(y.value, i);
      if p != q { return Some(if PartLess(p, q) then -1 else 1); }
    }
    return Some(0);
  }

  // ----- An order -----

  /** One is less at the first part where they differ. */
  predicate LessAt(x: Rank, y: Rank, i: nat) {
    PartLess(PartAt(x, i), PartAt(y, i)) && forall j :: 0 <= j < i ==> PartAt(x, j) == PartAt(y, j)
  }

  ghost predicate Older(x: Rank, y: Rank) {
    exists i: nat :: LessAt(x, y, i)
  }

  ghost predicate SameRank(x: Rank, y: Rank) {
    forall i: nat :: PartAt(x, i) == PartAt(y, i)
  }

  lemma {:induction false} FromIs(x: Rank, y: Rank, i: nat)
    requires forall j :: 0 <= j < i ==> PartAt(x, j) == PartAt(y, j)
    ensures CompareFrom(x, y, i) < 0 <==> Older(x, y)
    ensures CompareFrom(x, y, i) > 0 <==> Older(y, x)
    ensures CompareFrom(x, y, i) == 0 <==> SameRank(x, y)
    decreases Longest(x, y) - i
  {
    if i >= Longest(x, y) {
      assert forall j: nat :: PartAt(x, j) == PartAt(y, j);
    } else if PartAt(x, i) != PartAt(y, i) {
      FirstTells(x, y, i);
    } else {
      FromIs(x, y, i + 1);
    }
  }

  lemma {:induction false} FirstTells(x: Rank, y: Rank, i: nat)
    requires PartAt(x, i) != PartAt(y, i) && forall j :: 0 <= j < i ==> PartAt(x, j) == PartAt(y, j)
    ensures !SameRank(x, y)
    ensures Older(x, y) <==> PartLess(PartAt(x, i), PartAt(y, i))
    ensures Older(y, x) <==> PartLess(PartAt(y, i), PartAt(x, i))
  {
    if PartLess(PartAt(x, i), PartAt(y, i)) { assert LessAt(x, y, i); } else { assert LessAt(y, x, i); }
    forall k: nat ensures LessAt(x, y, k) || LessAt(y, x, k) ==> k == i {
      if k < i { assert PartAt(x, k) == PartAt(y, k); }
    }
  }

  /** Two releases compare by the first number that differs: older, newer or the same, and just one of
      these. */
  lemma {:induction false} ComparedIs(a: string, b: string)
    requires RankOf(a).Some? && RankOf(b).Some?
    ensures Compared(a, b).Some?
    ensures var (x, y, c) := (RankOf(a).value, RankOf(b).value, Compared(a, b).value);
      (c < 0 <==> Older(x, y)) && (c > 0 <==> Older(y, x)) && (c == 0 <==> SameRank(x, y))
  {
    FromIs(RankOf(a).value, RankOf(b).value, 0);
  }

  lemma {:induction false} OlderStill(x: Rank, y: Rank, z: Rank)
    requires Older(x, y) && (Older(y, z) || SameRank(y, z))
    ensures Older(x, z)
  {
    var i: nat :| LessAt(x, y, i);
    if SameRank(y, z) {
      assert LessAt(x, z, i);
    } else {
      var k: nat :| LessAt(y, z, k);
      assert LessAt(x, z, if i < k then i else k);
    }
  }

  /** It is an order: the other way round it turns, and older than older is older. */
  lemma {:induction false} ComparedOrders(a: string, b: string, c: string)
    requires RankOf(a).Some? && RankOf(b).Some? && RankOf(c).Some?
    ensures Compared(b, a) == Some(-Compared(a, b).value)
    ensures Compared(a, b).value < 0 && Compared(b, c).value <= 0 ==> Compared(a, c).value < 0
  {
    ComparedIs(a, b);
    ComparedIs(b, a);
    ComparedIs(b, c);
    ComparedIs(a, c);
    ComparesByOne(RankOf(a).value, RankOf(b).value, 0);
    ComparesByOne(RankOf(b).value, RankOf(a).value, 0);
    if Compared(a, b).value < 0 && Compared(b, c).value <= 0 { OlderStill(RankOf(a).value, RankOf(b).value, RankOf(c).value); }
  }

  lemma {:induction false} ComparesByOne(x: Rank, y: Rank, i: nat)
    ensures -1 <= CompareFrom(x, y, i) <= 1
    decreases Longest(x, y) - i
  {
    if i < Longest(x, y) { ComparesByOne(x, y, i + 1); }
  }

  // ----- Releases as they are written -----

  function Dotted(numbers: seq<nat>): string {
    Join(seq(|numbers|, i requires 0 <= i < |numbers| => Decimal(numbers[i])), '.')
  }

  function Wholes(numbers: seq<nat>): Rank {
    seq(|numbers|, i requires 0 <= i < |numbers| => Whole(numbers[i]))
  }

  predicate Plain(text: string) {
    text != "" && '0' <= text[0] <= '9' && !IsSpace(text[|text| - 1])
  }

  lemma {:induction false} TrimPlain(text: string)
    requires Plain(text)
    ensures TrimEnd(TrimStart(text)) == text
    ensures |text| >= 8 ==> Lower(text[..8]) != "snapshot"
  {
    if |text| >= 8 { assert Lower(text[..8])[0] == text[0] != "snapshot"[0]; }
  }

  lemma {:induction false} DashFound(head: string, rest: string)
    requires '-' !in head
    ensures Dashed(head) == (head, None) && Dashed(head + "-" + rest) == (head, Some(rest))
    decreases |head|
  {
    if head == "" {
      assert "" + "-" + rest == "-" + rest;
    } else {
      DashFound(head[1..], rest);
      assert (head + "-" + rest)[1..] == head[1..] + "-" + rest;
      assert head == [head[0]] + head[1..];
    }
  }

  lemma {:induction false} DottedReads(numbers: seq<nat>)
    requires numbers != []
    ensures var parts := Split(Dotted(numbers), '.'); AllDecimal(parts) && Numbers(parts) == Wholes(numbers)
    ensures '-' !in Dotted(numbers) && Plain(Dotted(numbers))
  {
    var parts := seq(|numbers|, i requires 0 <= i < |numbers| => Decimal(numbers[i]));
    forall i | 0 <= i < |numbers| ensures '.' !in parts[i] && Number(parts[i]) == numbers[i] { NumberOfDecimal(numbers[i]); }
    SplitOfJoin(parts, '.');
    JoinPlain(parts);
  }

  predicate Digits(c: char) {
    '0' <= c <= '9' || c == '.'
  }

  lemma {:induction false} JoinPlain(parts: seq<string>)
    requires parts != [] && AllDecimal(parts)
    ensures var text := Join(parts, '.'); text != "" && (forall i :: 0 <= i < |text| ==> Digits(text[i])) && '0' <= text[0] <= '9'
    decreases |parts|
  {
    if |parts| > 1 { JoinPlain(parts[1..]); }
  }

  /** A release of plain numbers; one of four or fewer is as if zeros followed. */
  lemma {:induction false} PlainRank(numbers: seq<nat>)
    requires numbers != []
    ensures RankOf(Dotted(numbers)) == Some(Padded(Wholes(numbers)) + [Whole(0)])
  {
    DottedReads(numbers);
    TrimPlain(Dotted(numbers));
    DashFound(Dotted(numbers), "");
  }

  lemma {:induction false} SuffixRank(numbers: seq<nat>, suffix: string)
    requires numbers != [] && suffix != "" && !IsSpace(suffix[|suffix| - 1])
    ensures RankOf(Dotted(numbers) + "-" + suffix) == WithSuffix(Wholes(numbers), suffix)
  {
    DottedReads(numbers);
    TrimPlain(Dotted(numbers) + "-" + suffix);
    DashFound(Dotted(numbers), suffix);
  }

  lemma {:induction false} CandidateSuffix(candidate: nat)
    ensures var suffix := "rc" + Decimal(candidate);
      && !IsSpace(suffix[|suffix| - 1]) && !HasSnapshot(suffix) && Candidate(suffix) == Some(candidate)
      && forall i :: 0 <= i < |suffix| ==> !EndsLine(suffix[i])
  {
    var suffix := "rc" + Decimal(candidate);
    NumberOfDecimal(candidate);
    assert suffix[..2] == "rc" && suffix[2..] == Decimal(candidate);
    assert Lower("rc") == "rc";
    assert forall i :: 2 <= i < |suffix| ==> '0' <= suffix[i] <= '9';
    NoSnapshot(suffix);
  }

  lemma {:induction false} CandidateRank(numbers: seq<nat>, candidate: nat)
    requires numbers != []
    ensures RankOf(Dotted(numbers) + "-" + ("rc" + Decimal(candidate))) == Some(Padded(Wholes(numbers)) + [Whole(candidate - 1000)])
  {
    CandidateSuffix(candidate);
    SuffixRank(numbers, "rc" + Decimal(candidate));
  }

  lemma {:induction false} NoSnapshot(text: string)
    requires forall i :: 0 <= i < |text| ==> text[i] == 'r' || text[i] == 'c' || '0' <= text[i] <= '9'
    ensures !HasSnapshot(text)
    decreases |text|
  {
    if |text| >= 8 {
      assert Lower(text[..8])[0] == text[0] != "snapshot"[0];
      NoSnapshot(text[1..]);
    }
  }

  lemma {:induction false} SnapshotRank(numbers: seq<nat>)
    requires numbers != []
    ensures RankOf(Dotted(numbers) + "-" + "SNAPSHOT") == Some(Wholes(numbers) + [Endless])
    ensures RankOf("SNAPSHOT") == Some([Endless])
  {
    var suffix := "SNAPSHOT";
    assert suffix[..8] == suffix && Lower(suffix) == "snapshot";
    SuffixRank(numbers, suffix);
  }

  predicate AllSpace(text: string) {
    forall i :: 0 <= i < |text| ==> IsSpace(text[i])
  }

  lemma {:induction false} TrimsSpace(before: string, text: string, after: string)
    requires AllSpace(before) && AllSpace(after) && Plain(text)
    ensures TrimEnd(TrimStart(before + text + after)) == text
    decreases |before| + |after|
  {
    var all := before + text + after;
    if before != "" {
      assert all[1..] == before[1..] + text + after;
      TrimsSpace(before[1..], text, after);
    } else if after != "" {
      assert all == text + after && all[0] == text[0];
      TrimsEnd(text, after);
    } else {
      assert all == text;
    }
  }

  lemma {:induction false} TrimsEnd(text: string, after: string)
    requires AllSpace(after) && text != "" && !IsSpace(text[|text| - 1])
    ensures TrimEnd(text + after) == text
    decreases |after|
  {
    if after == "" {
      assert text + after == text;
    } else {
      assert (text + after)[..|text + after| - 1] == text + after[..|after| - 1];
      TrimsEnd(text, after[..|after| - 1]);
    }
  }

  /** Spaces about a release do not count. */
  lemma {:induction false} SpacesAside(before: string, numbers: seq<nat>, after: string)
    requires numbers != [] && AllSpace(before) && AllSpace(after)
    ensures RankOf(before + Dotted(numbers) + after) == RankOf(Dotted(numbers))
  {
    var text := before + Dotted(numbers) + after;
    DottedReads(numbers);
    TrimPlain(Dotted(numbers));
    TrimsSpace(before, Dotted(numbers), after);
    if |text| >= 8 {
      assert text[0] == if before == "" then Dotted(numbers)[0] else before[0];
      assert Lower(text[..8])[0] != "snapshot"[0];
    }
  }

  // ----- Where candidates and snapshots stand -----

  lemma {:induction false} PadsWithZeros(numbers: Rank)
    ensures |Padded(numbers)| >= 4 && |Padded(numbers)| >= |numbers| && forall i: nat :: PartAt(Padded(numbers), i) == PartAt(numbers, i)
    decreases if |numbers| >= 4 then 0 else 4 - |numbers|
  {
    if |numbers| < 4 { PadsWithZeros(numbers + [Whole(0)]); }
  }

  lemma {:induction false} PaddedLength(a: Rank, b: Rank)
    requires |a| <= 4 && |b| <= 4
    ensures |Padded(a)| == 4 == |Padded(b)|
    decreases 8 - |a| - |b|
  {
    if |a| < 4 { PaddedLength(a + [Whole(0)], b); } else if |b| < 4 { PaddedLength(a, b + [Whole(0)]); }
  }

  /** A candidate is older than its release just when its number is below 1000, the same at 1000 and
      newer from there on. */
  lemma {:induction false} CandidateBefore(numbers: seq<nat>, candidate: nat)
    requires numbers != []
    ensures var order := Compared(Dotted(numbers) + "-" + ("rc" + Decimal(candidate)), Dotted(numbers));
      order.Some? && (order.value < 0 <==> candidate < 1000) && (order.value == 0 <==> candidate == 1000)
  {
    var padded := Padded(Wholes(numbers));
    var x, y := padded + [Whole(candidate - 1000)], padded + [Whole(0)];
    PlainRank(numbers);
    CandidateRank(numbers, candidate);
    FromIs(x, y, 0);
    assert forall j :: 0 <= j < |padded| ==> PartAt(x, j) == PartAt(y, j);
    if candidate != 1000 { FirstTells(x, y, |padded|); }
  }

  /** A release of four numbers or fewer is as it would be with zeros after: 25.12 is 25.12.0. */
  lemma {:induction false} ZerosFollow(numbers: seq<nat>)
    requires 0 < |numbers| < 4
    ensures Compared(Dotted(numbers), Dotted(numbers + [0])) == Some(0)
  {
    PlainRank(numbers);
    PlainRank(numbers + [0]);
    assert Wholes(numbers + [0]) == Wholes(numbers) + [Whole(0)];
    var x := Padded(Wholes(numbers)) + [Whole(0)];
    FromIs(x, x, 0);
  }

  /** A release of these numbers, or a candidate of it. */
  ghost predicate IsRelease(release: string, numbers: seq<nat>) {
    release == Dotted(numbers) || exists candidate: nat :: release == Dotted(numbers) + "-" + ("rc" + Decimal(candidate))
  }

  lemma {:induction false} ReleaseRank(numbers: seq<nat>, release: string) returns (rank: Rank)
    requires numbers != [] && IsRelease(release, numbers)
    ensures RankOf(release) == Some(rank) && |rank| > 4 && |rank| > |numbers|
    ensures forall i: nat :: i < |rank| - 1 ==> PartAt(rank, i) == PartAt(Wholes(numbers), i)
    ensures forall i: nat :: PartAt(rank, i).Whole?
  {
    PadsWithZeros(Wholes(numbers));
    if release == Dotted(numbers) {
      PlainRank(numbers);
      rank := Padded(Wholes(numbers)) + [Whole(0)];
    } else {
      var candidate: nat :| release == Dotted(numbers) + "-" + ("rc" + Decimal(candidate));
      CandidateRank(numbers, candidate);
      rank := Padded(Wholes(numbers)) + [Whole(candidate - 1000)];
    }
    forall i: nat ensures (i < |rank| - 1 ==> PartAt(rank, i) == PartAt(Wholes(numbers), i)) && PartAt(rank, i).Whole? {
      assert PartAt(Padded(Wholes(numbers)), i) == PartAt(Wholes(numbers), i);
    }
  }

  /** Numbers that start as a line does, for as far as it goes. */
  predicate OfLine(numbers: seq<nat>, line: seq<nat>, to: nat) {
    forall i :: 0 <= i < to && i < |line| ==> PartAt(Wholes(numbers), i) == Whole(line[i])
  }

  /** A snapshot is newer than every release of its line, and each candidate of one. */
  lemma {:induction false} SnapshotAfterLine(line: seq<nat>, numbers: seq<nat>, release: string)
    requires line != [] && |line| <= 4 && numbers != [] && IsRelease(release, numbers) && OfLine(numbers, line, |line|)
    ensures var order := Compared(release, Dotted(line) + "-" + "SNAPSHOT"); order.Some? && order.value < 0
  {
    var x := ReleaseRank(numbers, release);
    var y: Rank := Wholes(line) + [Endless];
    SnapshotRank(line);
    FromIs(x, y, 0);
    FirstTells(x, y, |line|);
  }

  /** Against a release of another line it stands as the lines do. */
  lemma {:induction false} SnapshotByLine(line: seq<nat>, numbers: seq<nat>, release: string, i: nat)
    requires |line| <= 4 && numbers != [] && IsRelease(release, numbers)
    requires i < |line| && OfLine(numbers, line, i) && PartAt(Wholes(numbers), i) != Whole(line[i])
    ensures var order := Compared(release, Dotted(line) + "-" + "SNAPSHOT");
      order.Some? && (order.value < 0 <==> PartLess(PartAt(Wholes(numbers), i), Whole(line[i])))
  {
    var x := ReleaseRank(numbers, release);
    var y: Rank := Wholes(line) + [Endless];
    SnapshotRank(line);
    FromIs(x, y, 0);
    FirstTells(x, y, i);
  }

  /** The snapshot of no line is newer than every release. */
  lemma {:induction false} SnapshotLast(numbers: seq<nat>, release: string)
    requires numbers != [] && IsRelease(release, numbers)
    ensures Compared(release, "SNAPSHOT").Some? && Compared(release, "SNAPSHOT").value < 0
  {
    var x := ReleaseRank(numbers, release);
    var y: Rank := [Endless];
    SnapshotRank(numbers);
    FromIs(x, y, 0);
    assert PartAt(y, 0) == Endless;
    FirstTells(x, y, 0);
  }

  /** Numbers decide, the first that differs: 25.12.5 is before 25.12.10. */
  lemma {:induction false} NumbersDecide(a: seq<nat>, b: seq<nat>, i: nat)
    requires i < |a| && i < |b| && a[..i] == b[..i] && a[i] < b[i]
    ensures Compared(Dotted(a), Dotted(b)).Some? && Compared(Dotted(a), Dotted(b)).value < 0
  {
    PlainRank(a);
    PlainRank(b);
    var x, y := Padded(Wholes(a)) + [Whole(0)], Padded(Wholes(b)) + [Whole(0)];
    PadsWithZeros(Wholes(a));
    PadsWithZeros(Wholes(b));
    forall j | 0 <= j <= i ensures PartAt(x, j) == Whole(a[j]) && PartAt(y, j) == Whole(b[j]) {
      assert PartAt(Padded(Wholes(a)), j) == PartAt(Wholes(a), j);
      assert PartAt(Padded(Wholes(b)), j) == PartAt(Wholes(b), j);
    }
    assert forall j :: 0 <= j < i ==> a[j] == a[..i][j] == b[..i][j] == b[j];
    FromIs(x, y, 0);
    FirstTells(x, y, i);
  }
}
