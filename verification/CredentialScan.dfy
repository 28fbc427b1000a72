/** The chunked search for credentials in a file, with an overlap between chunks. */
module CredentialScan {

  type Byte = b: int | 0 <= b < 256

  type Bytes = seq<Byte>

  /** The needle occurs somewhere in the text, as one contiguous piece. */
  ghost predicate Occurs(needle: Bytes, text: Bytes) {
    exists i :: OccursAt(needle, text, i)
  }

  ghost predicate OccursAt(needle: Bytes, text: Bytes, i: int) {
    0 <= i && i + |needle| <= |text| && text[i..i + |needle|] == needle
  }

  method Contains(text: Bytes, needle: Bytes) returns (found: bool)
    ensures found <==> Occurs(needle, text)
  {
    var i := 0;
    while i + |needle| <= |text|
      invariant forall j :: 0 <= j < i ==> !OccursAt(needle, text, j)
    {
      if text[i..i + |needle|] == needle {
        assert OccursAt(needle, text, i);
        return true;
      }
      i := i + 1;
    }
    return false;
  }

  method ContainsAny(text: Bytes, needles: seq<Bytes>) returns (found: bool)
    ensures found <==> exists n :: n in needles && Occurs(n, text)
  {
    for k := 0 to |needles|
      invariant forall j :: 0 <= j < k ==> !Occurs(needles[j], text)
    {
      var here := Contains(text, needles[k]);
      if here {
        assert needles[k] in needles;
        return true;
      }
    }
    return false;
  }

  /** The file that the chunks were cut from. */
  function Joined(chunks: seq<Bytes>): Bytes {
    if chunks == [] then [] else Joined(chunks[..|chunks| - 1]) + chunks[|chunks| - 1]
  }

  function MaxLength(needles: seq<Bytes>): (m: nat)
    requires needles != []
    ensures forall n :: n in needles ==> |n| <= m
    ensures exists n :: n in needles && |n| == m
  {
    if |needles| == 1 then |needles[0]|
    else
      assert needles == [needles[0]] + needles[1..];
      var rest := MaxLength(needles[1..]);
      if |needles[0]| > rest then |needles[0]| else rest
  }

  /** The last `n` bytes, or everything when there are fewer. */
  function Tail(text: Bytes, n: nat): Bytes {
    if |text| <= n then text else text[|text| - n..]
  }

  lemma TailOfTail(seen: Bytes, chunk: Bytes, n: nat)
    ensures Tail(Tail(seen, n) + chunk, n) == Tail(seen + chunk, n)
  {
    assert Tail(seen, n) + chunk == Tail(seen + chunk, |Tail(seen, n)| + |chunk|);
  }

  lemma OccursInPart(needle: Bytes, text: Bytes, from: nat, to: nat, i: nat)
    requires from <= i && i + |needle| <= to <= |text|
    ensures OccursAt(needle, text[from..to], i - from) <==> OccursAt(needle, text, i)
  {
    var part, n := text[from..to], |needle|;
    var x, y := part[i - from..i - from + n], text[i..i + n];
    forall k | 0 <= k < n ensures x[k] == y[k] {
      assert x[k] == part[i - from + k] == text[i + k];
    }
    assert x == y;
  }

  /** An occurrence that a new chunk completes begins no earlier than the overlap. */
  lemma NewOccurrenceIsInWindow(needle: Bytes, seen: Bytes, chunk: Bytes, overlap: nat)
    requires |needle| <= overlap + 1 && !Occurs(needle, seen)
    ensures Occurs(needle, seen + chunk) <==> Occurs(needle, Tail(seen, overlap) + chunk)
  {
    var text, window := seen + chunk, Tail(seen, overlap) + chunk;
    var skipped := |text| - |window|;
    assert window == text[skipped..|text|];
    assert seen == text[0..|seen|];
    if i :| OccursAt(needle, text, i) {
      if i + |needle| <= |seen| {
        OccursInPart(needle, text, 0, |seen|, i);
      } else {
        OccursInPart(needle, text, skipped, |text|, i);
      }
    }
    if i :| OccursAt(needle, window, i) {
      OccursInPart(needle, text, skipped, |text|, skipped + i);
    }
  }

  /** However the file is cut into chunks, the scan finds a needle exactly when one occurs in the whole
      file; only in an empty file is an empty needle not found. */
  method ContainsCredential(chunks: seq<Bytes>, needles: seq<Bytes>) returns (found: bool)
    requires forall c :: c in chunks ==> c != []
    ensures found <==> exists n :: n in needles && Occurs(n, Joined(chunks)) && (n == [] ==> chunks != [])
  {
    hide Occurs, Joined, Tail, MaxLength;
    if needles == [] {
      return false;
    }
    var overlap := MaxLength(needles) - 1;
    var previous: Bytes := [];
    ghost var seen: Bytes := [];
    NothingSeen(overlap);
    forall n | n in needles && n != [] ensures !Occurs(n, seen) { NothingInNothing(n); }
    for i := 0 to |chunks|
      invariant seen == Joined(chunks[..i]) && previous == Tail(seen, if overlap < 0 then 0 else overlap)
      invariant forall n :: n in needles && (n == [] ==> i > 0) ==> !Occurs(n, seen)
    {
      var candidate := previous + chunks[i];
      CandidateTells(needles, seen, chunks[i], overlap, i > 0);
      var hit := ContainsAny(candidate, needles);
      if hit {
        ghost var n :| n in needles && Occurs(n, candidate);
        JoinedPrefix(chunks, i + 1);
        JoinedStep(chunks, i);
        OccursInLonger(n, seen + chunks[i], Joined(chunks));
        return true;
      }
      assert [] !in needles by { NothingIsEverywhere(candidate); }
      TailOfTail(seen, chunks[i], overlap);
      JoinedStep(chunks, i);
      KeptIsTail(candidate, overlap);
      previous := if overlap == 0 then []
                  else if |candidate| <= overlap then candidate
                  else candidate[|candidate| - overlap..];
      seen := seen + chunks[i];
    }
    assert chunks[..|chunks|] == chunks;
    return false;
  }

  lemma NothingSeen(overlap: int)
    ensures Joined([]) == [] && Tail([], if overlap < 0 then 0 else overlap) == []
  {
  }

  lemma JoinedStep(chunks: seq<Bytes>, i: nat)
    requires i < |chunks|
    ensures Joined(chunks[..i + 1]) == Joined(chunks[..i]) + chunks[i]
  {
    assert chunks[..i + 1][..i] == chunks[..i];
  }

  /** What is carried over to the next chunk is the tail of the candidate. */
  lemma KeptIsTail(candidate: Bytes, overlap: nat)
    ensures Tail(candidate, overlap) ==
            if overlap == 0 then []
            else if |candidate| <= overlap then candidate
            else candidate[|candidate| - overlap..]
  {
  }

  /** The candidate holds a needle exactly when everything read so far does. */
  lemma CandidateTells(needles: seq<Bytes>, seen: Bytes, chunk: Bytes, overlap: int, started: bool)
    requires forall n :: n in needles ==> |n| <= overlap + 1
    requires forall n :: n in needles && (n == [] ==> started) ==> !Occurs(n, seen)
    ensures forall n :: n in needles ==>
              (Occurs(n, seen + chunk) <==> Occurs(n, Tail(seen, if overlap < 0 then 0 else overlap) + chunk))
  {
    hide Occurs, Tail;
    forall n | n in needles
      ensures Occurs(n, seen + chunk) <==> Occurs(n, Tail(seen, if overlap < 0 then 0 else overlap) + chunk)
    {
      if n == [] {
        NothingIsEverywhere(seen + chunk);
        NothingIsEverywhere(Tail(seen, if overlap < 0 then 0 else overlap) + chunk);
      } else {
        NewOccurrenceIsInWindow(n, seen, chunk, overlap);
      }
    }
  }

  lemma NothingIsEverywhere(text: Bytes)
    ensures Occurs([], text)
  {
    assert OccursAt([], text, 0);
  }

  lemma NothingInNothing(needle: Bytes)
    requires needle != []
    ensures !Occurs(needle, [])
  {
  }

  lemma {:induction false} JoinedPrefix(chunks: seq<Bytes>, i: nat)
    requires i <= |chunks|
    ensures Joined(chunks[..i]) <= Joined(chunks)
  {
    if i == |chunks| {
      assert chunks[..i] == chunks;
    } else {
      var init := chunks[..|chunks| - 1];
      JoinedPrefix(init, i);
      assert init[..i] == chunks[..i];
    }
  }

  lemma OccursInLonger(needle: Bytes, text: Bytes, longer: Bytes)
    requires Occurs(needle, text) && text <= longer
    ensures Occurs(needle, longer)
  {
    var i :| OccursAt(needle, text, i);
    assert longer[i..i + |needle|] == text[i..i + |needle|];
    assert OccursAt(needle, longer, i);
  }
}
