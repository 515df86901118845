/** Choosing which generated atlas `AIGC_OUTPUT_NN.png` to apply. The scene
    property `current_output_index` lives in an object that the "Next Try"
    operator updates in place; which numbered files exist in the assets
    folder is given as the set of their indices. */
module OutputIndex {
  import opened Wrappers

  /** Highest candidate number the scans consider (`range(..., 11)`). */
  const MaxIndex: int := 10

  /** The first index in `lo .. hi - 1` whose file exists, scanning upward. */
  function FirstExisting(lo: int, hi: int, existing: set<int>): (r: Option<int>)
    decreases hi - lo
    ensures r.Some? ==> lo <= r.value < hi && r.value in existing
    ensures r.Some? ==> forall j :: lo <= j < r.value ==> j !in existing
    ensures r.None? <==> forall j :: lo <= j < hi ==> j !in existing
  {
    if lo >= hi then None
    else if lo in existing then Some(lo)
    else FirstExisting(lo + 1, hi, existing)
  }

  /** The candidate "Next Try" moves to from index `current`: the first
      existing index after it up to `MaxIndex`, else, wrapping around, the
      first existing index from 1 up to and including `current`. */
  function NextCandidate(current: int, existing: set<int>): (r: Option<int>)
    ensures r.Some? ==> r.value in existing && (current < r.value <= MaxIndex || 1 <= r.value <= current)
    ensures r.None? <==> forall j :: (current < j <= MaxIndex || 1 <= j <= current) ==> j !in existing
  {
    match FirstExisting(current + 1, MaxIndex + 1, existing)
    case Some(k) => Some(k)
    case None => FirstExisting(1, current + 1, existing)
  }

  datatype Status = Finished | Cancelled

  /** The add-on's scene properties that the operators read and write. */
  class SideviewCreatorProps {
    var outputFolder: string
    var currentOutputIndex: int

    /** The index never goes below its default of 0. */
    ghost predicate Valid()
      reads this
    {
      currentOutputIndex >= 0
    }

    constructor ()
      ensures Valid()
      ensures outputFolder == "" && currentOutputIndex == 0
    {
      outputFolder := "";
      currentOutputIndex := 0;
    }

    /** `NextTryOperator.execute` up to the call that applies the chosen
        atlas: with no assets folder nothing changes; otherwise the index
        is incremented and then moved to the next existing candidate. When
        no candidate exists the incremented index stays. Because the index
        was not negative, a finished try leaves it on a positive, existing
        index, which "Apply Textures" then opens directly. */
    method NextTry(existing: set<int>) returns (status: Status)
      requires Valid()
      modifies this`currentOutputIndex
      ensures Valid()
      ensures outputFolder == "" ==>
        status == Cancelled && currentOutputIndex == old(currentOutputIndex)
      ensures outputFolder != "" ==>
        match NextCandidate(old(currentOutputIndex), existing)
        case Some(k) => status == Finished && currentOutputIndex == k
        case None => status == Cancelled && currentOutputIndex == old(currentOutputIndex) + 1
      ensures status == Finished ==> 1 <= currentOutputIndex && currentOutputIndex in existing
    {
      if outputFolder == "" {
        return Cancelled;
      }
      currentOutputIndex := currentOutputIndex + 1;
      var start := currentOutputIndex;
      var found := false;
      var i := start;
      while i < MaxIndex + 1
        invariant start <= i
        invariant currentOutputIndex == start
        invariant forall j :: start <= j < i ==> j !in existing
        decreases MaxIndex + 1 - i
      {
        if i in existing {
          currentOutputIndex := i;
          found := true;
          break;
        }
        i := i + 1;
      }
      if !found {
        assert FirstExisting(start, MaxIndex + 1, existing).None?;
        var wrapEnd := currentOutputIndex;
        i := 1;
        while i < wrapEnd
          invariant 1 <= i
          invariant currentOutputIndex == start
          invariant forall j :: 1 <= j < i ==> j !in existing
          decreases wrapEnd - i
        {
          if i in existing {
            currentOutputIndex := i;
            found := true;
            break;
          }
          i := i + 1;
        }
      }
      status := if found then Finished else Cancelled;
    }
  }

  /** Why `ApplyTexturesOperator.execute` finds no atlas to open. */
  datatype SelectError =
    | MissingCandidate(index: int)  // the requested AIGC_OUTPUT_NN.png does not exist
    | NoCandidate                   // nothing found for an index <= 0: `collage_path` is never bound

  /** The atlas selection of `ApplyTexturesOperator.execute`: a positive
      `output_index` names its file directly; otherwise the first existing
      file from 1 to `MaxIndex` is taken. */
  method SelectCollage(outputIndex: int, existing: set<int>) returns (r: Result<int, SelectError>)
    ensures outputIndex > 0 ==>
      r == if outputIndex in existing then Ok(outputIndex) else Err(MissingCandidate(outputIndex))
    ensures outputIndex <= 0 ==>
      (r.Ok? <==> exists j :: 1 <= j <= MaxIndex && j in existing)
    ensures outputIndex <= 0 && r.Ok? ==>
      1 <= r.value <= MaxIndex && r.value in existing &&
      forall j :: 1 <= j < r.value ==> j !in existing
    ensures r.Err? && outputIndex <= 0 ==> r.error == NoCandidate
  {
    if outputIndex > 0 {
      if outputIndex in existing {
        return Ok(outputIndex);
      }
      return Err(MissingCandidate(outputIndex));
    }
    for i := 1 to MaxIndex + 1
      invariant forall j :: 1 <= j < i ==> j !in existing
    {
      if i in existing {
        return Ok(i);
      }
    }
    return Err(NoCandidate);
  }

  /** The result of cycling is the smallest existing index after the old
      one (up to `MaxIndex`) or, failing that, the smallest existing index
      in 1 .. old, the old index itself included. */
  lemma NextCandidateIsSmallest(current: int, existing: set<int>)
    ensures match NextCandidate(current, existing)
      case Some(k) =>
        k in existing &&
        ((current < k <= MaxIndex && forall j :: current < j < k ==> j !in existing) ||
         (1 <= k <= current && (forall j :: current < j <= MaxIndex ==> j !in existing)
                            && (forall j :: 1 <= j < k ==> j !in existing)))
      case None =>
        (forall j :: current < j <= MaxIndex ==> j !in existing) &&
        (forall j :: 1 <= j <= current ==> j !in existing)
  {
  }

  /** The highest index a scan from `current` can reach: `MaxIndex`, or the
      old index itself once failed attempts have pushed it past `MaxIndex`. */
  function Reach(current: int): int
  {
    if current > MaxIndex then current else MaxIndex
  }

  /** From a non-negative index, cycling lands on an existing file numbered
      from 1 to `Reach(current)` (so 1 to 10 while the index has not passed
      10), and fails only when no file in that range exists at all. */
  lemma NextCandidateInRange(current: int, existing: set<int>)
    requires current >= 0
    ensures NextCandidate(current, existing).Some? ==>
      var k := NextCandidate(current, existing).value; 1 <= k <= Reach(current) && k in existing
    ensures NextCandidate(current, existing).None? <==>
      forall j :: 1 <= j <= Reach(current) ==> j !in existing
  {
    var r := NextCandidate(current, existing);
    if r.None? {
      forall j | 1 <= j <= Reach(current) ensures j !in existing {
        if j > current { } else { }
      }
    }
  }

  /** Worked cases: from 3 with files 5 and 9 the next try is 5; from 9
      with files 2 and 5 it wraps to 2; from 11, reached after failed
      attempts, a file numbered 11 is taken although it lies past 10. */
  lemma CyclingExamples()
    ensures NextCandidate(3, {5, 9}) == Some(5)
    ensures NextCandidate(9, {2, 5}) == Some(2)
    ensures NextCandidate(11, {11}) == Some(11)
    ensures NextCandidate(4, {}) == None
  {
  }

  /** "Apply Textures" run on the index "Next Try" settled on opens that
      index's file: the selection succeeds with exactly that index. */
  method SelectAfterNextTry(current: int, existing: set<int>) returns (r: Result<int, SelectError>)
    requires current >= 0 && NextCandidate(current, existing).Some?
    ensures r == Ok(NextCandidate(current, existing).value)
  {
    NextCandidateInRange(current, existing);
    r := SelectCollage(NextCandidate(current, existing).value, existing);
  }
}
