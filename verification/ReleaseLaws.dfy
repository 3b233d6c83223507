/** What a release's suffix may be (src/release.ts, releaseOrder): a candidate's number or a snapshot, in
    any case, on one line; with any other the text is no release. */
module ReleaseLaws {
  import opened Wrappers
  import opened Text
  import opened Releases

  /** A word in any mix of cases. */
  predicate IsWord(text: string, word: string) {
    |text| == |word| && forall i :: 0 <= i < |word| ==> text[i] == word[i] || (text[i] as int) + 32 == (word[i] as int)
  }

  lemma {:induction false} LowerIs(text: string, word: string)
    requires forall i :: 0 <= i < |word| ==> 'a' <= word[i] <= 'z'
    ensures Lower(text) == word <==> IsWord(text, word)
  {
    var lower := Lower(text);
    assert forall i :: 0 <= i < |text| ==> lower[i] == if 'A' <= text[i] <= 'Z' then text[i] - 'A' + 'a' else text[i];
    if IsWord(text, word) { assert lower == word; }
  }

  predicate HoldsSnapshot(text: string) {
    exists i :: 0 <= i < |text| && IsSnapshotAt(text, i)
  }

  predicate IsSnapshotAt(text: string, i: nat) {
    i + 8 <= |text| && IsWord(text[i..i + 8], "snapshot")
  }

  lemma {:induction false} SnapshotHeld(text: string)
    ensures HasSnapshot(text) <==> HoldsSnapshot(text)
    decreases |text|
  {
    if |text| >= 8 {
      LowerIs(text[..8], "snapshot");
      SnapshotHeld(text[1..]);
      assert text[0..8] == text[..8];
      if IsWord(text[..8], "snapshot") { assert IsSnapshotAt(text, 0); }
      if i :| 0 <= i < |text| - 1 && IsSnapshotAt(text[1..], i) {
        assert text[1..][i..i + 8] == text[i + 1..i + 1 + 8];
        assert IsSnapshotAt(text, i + 1);
      }
      if i :| 1 <= i < |text| && IsSnapshotAt(text, i) {
        assert text[1..][i - 1..i - 1 + 8] == text[i..i + 8];
        assert IsSnapshotAt(text[1..], i - 1);
      }
    }
  }

  /** A break a text's line ends at. */
  predicate HasBreak(text: string) {
    '\n' in text || '\r' in text || '\U{2028}' in text || '\U{2029}' in text
  }

  predicate IsCandidate(suffix: string) {
    |suffix| > 2 && IsWord(suffix[..2], "rc") && IsDecimal(suffix[2..])
  }

  lemma {:induction false} BreakIs(text: string)
    ensures HasBreak(text) <==> exists i :: 0 <= i < |text| && EndsLine(text[i])
  {
  }

  /** A release's numbers with a suffix: a snapshot after all of its line, a candidate a thousand before
      its release, and no release with any other suffix, or one broken over lines. */
  lemma {:induction false} SuffixIs(numbers: seq<nat>, suffix: string)
    requires numbers != [] && suffix != "" && !IsSpace(suffix[|suffix| - 1])
    ensures RankOf(Dotted(numbers) + "-" + suffix) ==
      if HasBreak(suffix) then None
      else if HoldsSnapshot(suffix) then Some(Wholes(numbers) + [Endless])
      else if IsCandidate(suffix) then Some(Padded(Wholes(numbers)) + [Whole(Number(suffix[2..]) - 1000)])
      else None
  {
    SuffixRank(numbers, suffix);
    SnapshotHeld(suffix);
    BreakIs(suffix);
    if |suffix| > 2 { LowerIs(suffix[..2], "rc"); }
  }
}
