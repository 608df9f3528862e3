/** Every schedule of the download workers: what they hold, what they write, what they count. */
module MediaProofs {
  import opened Wrappers
  import opened Bytes
  import opened Media

  /** The chunk a worker is busy with. */
  function Owned(w: Worker): Option<nat> {
    match w
    case Fetching(chunk) => Some(chunk)
    case Writing(chunk, _, _) => Some(chunk)
    case Adding(chunk) => Some(chunk)
    case Failing(chunk) => Some(chunk)
    case _ => None
  }

  // ----- Who holds which chunk -----

  predicate IsInside(s: State, total: nat, chunk: nat) {
    chunk < s.claims && Start(chunk) < total
  }

  ghost predicate IsOwned(s: State, chunk: nat) {
    exists w :: 0 <= w < |s.workers| && Owned(s.workers[w]) == Some(chunk)
  }

  /** No chunk is held by two workers, or held and dealt with. */
  ghost predicate Disjoint(s: State, total: nat) {
    && (forall v, w :: 0 <= v < w < |s.workers| && Owned(s.workers[v]).Some? ==> Owned(s.workers[v]) != Owned(s.workers[w]))
    && (forall w :: 0 <= w < |s.workers| && Owned(s.workers[w]).Some? ==>
          var chunk := Owned(s.workers[w]).value;
          IsInside(s, total, chunk) && chunk !in s.added && chunk !in s.abandoned)
    && (forall c :: c in s.added ==> IsInside(s, total, c) && c !in s.abandoned)
    && (forall c :: c in s.abandoned ==> IsInside(s, total, c))
  }

  ghost predicate Covered(s: State, total: nat) {
    forall c: nat :: IsInside(s, total, c) ==> c in s.added || c in s.abandoned || IsOwned(s, c)
  }

  ghost predicate Ended(s: State, total: nat) {
    && (s.abandoned != {} ==> s.failed)
    && (Returned(false) in s.workers ==> s.failed)
    && (Returned(true) in s.workers ==> Start(s.claims) >= total)
  }

  ghost predicate Holdings(s: State, total: nat) {
    Disjoint(s, total) && Covered(s, total) && Ended(s, total)
  }

  lemma OwnedStays(s: State, s': State, w: nat, c: nat)
    requires w < |s.workers| && w < |s'.workers| && s'.workers == s.workers[w := s'.workers[w]]
    requires IsOwned(s, c) && (Owned(s.workers[w]) == Some(c) ==> Owned(s'.workers[w]) == Some(c))
    ensures IsOwned(s', c)
  {
    var v :| 0 <= v < |s.workers| && Owned(s.workers[v]) == Some(c);
    assert Owned(s'.workers[v]) == Some(c);
  }

  /** A worker that keeps its hands on what it has, or on nothing, disturbs nobody. */
  lemma SameHoldings(s: State, s': State, total: nat, w: nat)
    requires Holdings(s, total) && w < |s.workers| && w < |s'.workers|
    requires s'.workers == s.workers[w := s'.workers[w]] && Owned(s'.workers[w]) == Owned(s.workers[w])
    requires s'.claims == s.claims && s'.added == s.added && s'.abandoned == s.abandoned
    requires (s.failed ==> s'.failed) && (s'.workers[w] == Returned(false) ==> s'.failed) && s'.workers[w] != Returned(true)
    ensures Holdings(s', total)
  {
    forall c: nat | IsInside(s', total, c)
      ensures c in s'.added || c in s'.abandoned || IsOwned(s', c)
    {
      assert IsInside(s, total, c);
      if IsOwned(s, c) {
        OwnedStays(s, s', w, c);
      }
    }
    Endings(s, s', w);
  }

  lemma Endings(s: State, s': State, w: nat)
    requires w < |s.workers| && w < |s'.workers| && s'.workers == s.workers[w := s'.workers[w]]
    ensures forall past :: Returned(past) in s'.workers ==> Returned(past) in s.workers || s'.workers[w] == Returned(past)
  {
  }

  lemma ClaimHoldings(s: State, s': State, source: seq<byte>, w: nat)
    requires Holdings(s, |source|) && Step(s, s', source, w) && s.workers[w] == Claiming
    ensures Holdings(s', |source|)
  {
    forall c: nat | IsInside(s', |source|, c)
      ensures c in s'.added || c in s'.abandoned || IsOwned(s', c)
    {
      if c == s.claims {
        assert Owned(s'.workers[w]) == Some(c);
      } else {
        assert IsInside(s, |source|, c);
        if IsOwned(s, c) {
          OwnedStays(s, s', w, c);
        }
      }
    }
    Endings(s, s', w);
  }

  lemma ReleaseHoldings(s: State, s': State, source: seq<byte>, w: nat)
    requires Holdings(s, |source|) && Step(s, s', source, w) && (s.workers[w].Adding? || s.workers[w].Failing?)
    ensures Holdings(s', |source|)
  {
    var chunk := s.workers[w].chunk;
    forall c: nat | IsInside(s', |source|, c)
      ensures c in s'.added || c in s'.abandoned || IsOwned(s', c)
    {
      assert IsInside(s, |source|, c);
      if IsOwned(s, c) && c != chunk {
        OwnedStays(s, s', w, c);
      }
    }
    Endings(s, s', w);
  }

  lemma StepHoldings(s: State, s': State, source: seq<byte>, w: nat)
    requires Holdings(s, |source|) && Step(s, s', source, w)
    ensures Holdings(s', |source|)
  {
    if s.workers[w] == Claiming {
      ClaimHoldings(s, s', source, w);
    } else if s.workers[w].Adding? || s.workers[w].Failing? {
      ReleaseHoldings(s, s', source, w);
    } else {
      SameHoldings(s, s', |source|, w);
    }
  }

  // ----- What is written -----

  /** The first `upto` bytes of the chunk are the source's, each written once; the others
      were not written yet. */
  ghost predicate IsWritten(s: State, source: seq<byte>, chunk: nat, upto: nat) {
    && |s.file| == |s.hits| == |source|
    && forall i :: Start(chunk) <= i < Start(chunk) + CHUNK && i < |source| ==>
         s.hits[i] == (if i < Start(chunk) + upto then 1 else 0) && (i < Start(chunk) + upto ==> s.file[i] == source[i])
  }

  ghost predicate IsPartly(s: State, source: seq<byte>, chunk: nat) {
    exists upto :: IsWritten(s, source, chunk, upto)
  }

  ghost predicate IsAsFar(s: State, source: seq<byte>, w: Worker)
    requires Owned(w).Some? ==> Start(Owned(w).value) < |source|
  {
    match w
    case Fetching(chunk) => IsWritten(s, source, chunk, 0)
    case Writing(chunk, bytes, at) =>
      && IsWritten(s, source, chunk, at) && at <= |bytes| == Size(|source|, chunk)
      && bytes == source[Start(chunk)..Start(chunk) + |bytes|]
    case Adding(chunk) => IsWritten(s, source, chunk, CHUNK)
    case Failing(chunk) => IsPartly(s, source, chunk)
    case _ => true
  }

  ghost predicate Contents(s: State, source: seq<byte>)
    requires Disjoint(s, |source|)
  {
    && |s.file| == |s.hits| == |source|
    && (forall c: nat :: s.claims <= c && Start(c) < |source| ==> IsWritten(s, source, c, 0))
    && (forall c :: c in s.added ==> IsWritten(s, source, c, CHUNK))
    && (forall c :: c in s.abandoned ==> IsPartly(s, source, c))
    && (forall w :: 0 <= w < |s.workers| ==> IsAsFar(s, source, s.workers[w]))
  }

  lemma PlaceAt<T>(file: seq<T>, offset: nat, bytes: seq<T>, i: nat)
    requires offset + |bytes| <= |file| && i < |file|
    ensures |Place(file, offset, bytes)| == |file|
    ensures Place(file, offset, bytes)[i] == if offset <= i < offset + |bytes| then bytes[i - offset] else file[i]
  {
  }

  /** A write inside one chunk is not seen in another. */
  lemma WritesElsewhere(s: State, s': State, source: seq<byte>, w: nat, chunk: nat, bytes: seq<byte>, at: nat, n: nat, c: nat, upto: nat)
    requires w < |s.workers| && WriteStep(s, s', w, chunk, bytes, at, n)
    requires at + n <= CHUNK && c != chunk && IsWritten(s, source, c, upto)
    ensures IsWritten(s', source, c, upto)
  {
    forall i | Start(c) <= i < Start(c) + CHUNK && i < |source|
      ensures s'.hits[i] == s.hits[i] && s'.file[i] == s.file[i]
    {
      PlaceAt(s.file, Start(chunk) + at, bytes[at..at + n], i);
    }
  }

  lemma WritesHere(s: State, s': State, source: seq<byte>, w: nat, chunk: nat, bytes: seq<byte>, at: nat, n: nat)
    requires w < |s.workers| && WriteStep(s, s', w, chunk, bytes, at, n) && IsWritten(s, source, chunk, at)
    requires Start(chunk) + |bytes| <= |source| && bytes == source[Start(chunk)..Start(chunk) + |bytes|]
    ensures IsWritten(s', source, chunk, at + n)
  {
    forall i | Start(chunk) <= i < Start(chunk) + CHUNK && i < |source|
      ensures s'.hits[i] == (if i < Start(chunk) + at + n then 1 else 0)
      ensures i < Start(chunk) + at + n ==> s'.file[i] == source[i]
    {
      PlaceAt(s.file, Start(chunk) + at, bytes[at..at + n], i);
      if Start(chunk) + at <= i < Start(chunk) + at + n {
        assert bytes[at..at + n][i - Start(chunk) - at] == bytes[i - Start(chunk)];
      }
    }
  }

  lemma PartlyElsewhere(s: State, s': State, source: seq<byte>, w: nat, chunk: nat, bytes: seq<byte>, at: nat, n: nat, c: nat)
    requires w < |s.workers| && WriteStep(s, s', w, chunk, bytes, at, n)
    requires at + n <= CHUNK && c != chunk && IsPartly(s, source, c)
    ensures IsPartly(s', source, c)
  {
    var upto :| IsWritten(s, source, c, upto);
    WritesElsewhere(s, s', source, w, chunk, bytes, at, n, c, upto);
  }

  lemma FarElsewhere(s: State, s': State, source: seq<byte>, w: nat, chunk: nat, bytes: seq<byte>, at: nat, n: nat, v: Worker)
    requires w < |s.workers| && WriteStep(s, s', w, chunk, bytes, at, n)
    requires at + n <= CHUNK && Owned(v) != Some(chunk)
    requires (Owned(v).Some? ==> Start(Owned(v).value) < |source|) && IsAsFar(s, source, v)
    ensures IsAsFar(s', source, v)
  {
    match v
    case Fetching(c) => WritesElsewhere(s, s', source, w, chunk, bytes, at, n, c, 0);
    case Writing(c, _, upto) => WritesElsewhere(s, s', source, w, chunk, bytes, at, n, c, upto);
    case Adding(c) => WritesElsewhere(s, s', source, w, chunk, bytes, at, n, c, CHUNK);
    case Failing(c) => PartlyElsewhere(s, s', source, w, chunk, bytes, at, n, c);
    case _ =>
  }

  lemma WriteContents(s: State, s': State, source: seq<byte>, w: nat, chunk: nat, bytes: seq<byte>, at: nat, n: nat)
    requires Holdings(s, |source|) && Contents(s, source) && Holdings(s', |source|)
    requires w < |s.workers| && s.workers[w] == Writing(chunk, bytes, at) && WriteStep(s, s', w, chunk, bytes, at, n)
    ensures Contents(s', source)
  {
    assert IsAsFar(s, source, s.workers[w]);
    assert Owned(s.workers[w]) == Some(chunk);
    forall c: nat | s'.claims <= c && Start(c) < |source|
      ensures IsWritten(s', source, c, 0)
    {
      WritesElsewhere(s, s', source, w, chunk, bytes, at, n, c, 0);
    }
    forall c | c in s'.added
      ensures IsWritten(s', source, c, CHUNK)
    {
      WritesElsewhere(s, s', source, w, chunk, bytes, at, n, c, CHUNK);
    }
    forall c | c in s'.abandoned
      ensures IsPartly(s', source, c)
    {
      PartlyElsewhere(s, s', source, w, chunk, bytes, at, n, c);
    }
    forall v | 0 <= v < |s'.workers|
      ensures IsAsFar(s', source, s'.workers[v])
    {
      if v == w {
        WritesHere(s, s', source, w, chunk, bytes, at, n);
      } else {
        FarElsewhere(s, s', source, w, chunk, bytes, at, n, s.workers[v]);
      }
    }
  }

  /** A step that writes nothing: what the others have written is as it was. */
  lemma SameContents(s: State, s': State, source: seq<byte>, w: nat)
    requires Holdings(s, |source|) && Contents(s, source) && Holdings(s', |source|)
    requires w < |s.workers| && w < |s'.workers| && s'.workers == s.workers[w := s'.workers[w]]
    requires s'.file == s.file && s'.hits == s.hits && s'.claims >= s.claims
    requires IsAsFar(s', source, s'.workers[w])
    requires forall c :: c in s'.added ==> c in s.added || IsWritten(s', source, c, CHUNK)
    requires forall c :: c in s'.abandoned ==> c in s.abandoned || IsPartly(s', source, c)
    ensures Contents(s', source)
  {
    forall c: nat | s'.claims <= c && Start(c) < |source|
      ensures IsWritten(s', source, c, 0)
    {
      assert IsWritten(s, source, c, 0);
    }
    forall c | c in s'.added
      ensures IsWritten(s', source, c, CHUNK)
    {
      assert c in s.added ==> IsWritten(s, source, c, CHUNK);
    }
    forall c | c in s'.abandoned
      ensures IsPartly(s', source, c)
    {
      if c in s.abandoned {
        SamePartly(s, s', source, c);
      }
    }
    forall v | 0 <= v < |s'.workers|
      ensures IsAsFar(s', source, s'.workers[v])
    {
      if v != w {
        SameFar(s, s', source, s.workers[v]);
      }
    }
  }

  lemma SamePartly(s: State, s': State, source: seq<byte>, c: nat)
    requires s'.file == s.file && s'.hits == s.hits && IsPartly(s, source, c)
    ensures IsPartly(s', source, c)
  {
    var upto :| IsWritten(s, source, c, upto);
    assert IsWritten(s', source, c, upto);
  }

  lemma SameFar(s: State, s': State, source: seq<byte>, v: Worker)
    requires s'.file == s.file && s'.hits == s.hits
    requires (Owned(v).Some? ==> Start(Owned(v).value) < |source|) && IsAsFar(s, source, v)
    ensures IsAsFar(s', source, v)
  {
    if v.Failing? {
      SamePartly(s, s', source, v.chunk);
    }
  }

  lemma ClaimingContents(s: State, s': State, source: seq<byte>, w: nat)
    requires Holdings(s, |source|) && Contents(s, source) && Step(s, s', source, w) && Holdings(s', |source|)
    requires s.workers[w] == Claiming
    ensures Contents(s', source)
  {
    if s'.workers[w].Fetching? {
      assert IsWritten(s, source, s.claims, 0);
      assert IsWritten(s', source, s.claims, 0);
    }
    SameContents(s, s', source, w);
  }

  lemma ReleasingContents(s: State, s': State, source: seq<byte>, w: nat)
    requires Holdings(s, |source|) && Contents(s, source) && Step(s, s', source, w) && Holdings(s', |source|)
    requires s.workers[w].Adding? || s.workers[w].Failing?
    ensures Contents(s', source)
  {
    assert IsAsFar(s, source, s.workers[w]);
    var chunk := s.workers[w].chunk;
    if s.workers[w].Adding? {
      assert IsWritten(s', source, chunk, CHUNK);
    } else {
      SamePartly(s, s', source, chunk);
    }
    SameContents(s, s', source, w);
  }

  lemma StepContents(s: State, s': State, source: seq<byte>, w: nat)
    requires Holdings(s, |source|) && Contents(s, source) && Step(s, s', source, w) && Holdings(s', |source|)
    ensures Contents(s', source)
  {
    if s.workers[w].Writing? {
      WritingContents(s, s', source, w);
    } else if s.workers[w].Adding? || s.workers[w].Failing? {
      ReleasingContents(s, s', source, w);
    } else if s.workers[w] == Claiming {
      ClaimingContents(s, s', source, w);
    } else {
      assert IsAsFar(s, source, s.workers[w]);
      if s.workers[w].Fetching? {
        assert IsWritten(s', source, s.workers[w].chunk, 0);
      }
      SameContents(s, s', source, w);
    }
  }

  lemma WritingContents(s: State, s': State, source: seq<byte>, w: nat)
    requires Holdings(s, |source|) && Contents(s, source) && Step(s, s', source, w) && Holdings(s', |source|)
    requires s.workers[w].Writing?
    ensures Contents(s', source)
  {
    var Writing(chunk, bytes, at) := s.workers[w];
    assert IsAsFar(s, source, s.workers[w]);
    if s'.workers[w].Writing? {
      var n :| WriteStep(s, s', w, chunk, bytes, at, n);
      WriteContents(s, s', source, w, chunk, bytes, at, n);
    } else {
      assert IsWritten(s', source, chunk, at);
      assert s'.workers[w].Adding? ==> IsWritten(s', source, chunk, CHUNK);
      SameContents(s, s', source, w);
    }
  }

  // ----- What is counted -----

  /** The sizes of the chunks below `n` that were added. */
  ghost function Sum(total: nat, n: nat, added: set<nat>): nat {
    if n == 0 then 0
    else Sum(total, n - 1, added) + if n - 1 in added && Start(n - 1) < total then Size(total, n - 1) else 0
  }

  lemma {:induction false} SumMore(total: nat, n: nat, added: set<nat>, c: nat)
    requires c !in added && Start(c) < total
    ensures Sum(total, n, added + {c}) == Sum(total, n, added) + if c < n then Size(total, c) else 0
  {
    if n > 0 {
      SumMore(total, n - 1, added, c);
    }
  }

  lemma {:induction false} SumBound(total: nat, n: nat, added: set<nat>)
    ensures Sum(total, n, added) <= Min(Start(n), total)
  {
    if n > 0 {
      SumBound(total, n - 1, added);
    }
  }

  lemma {:induction false} SumAll(total: nat, n: nat, added: set<nat>)
    requires forall c: nat :: c < n && Start(c) < total ==> c in added
    ensures Sum(total, n, added) == Min(Start(n), total)
  {
    if n > 0 {
      SumAll(total, n - 1, added);
    }
  }

  ghost predicate Counts(s: State, total: nat) {
    && s.done == Sum(total, s.claims, s.added)
    && (forall r :: r in s.reports ==> r <= total)
    && (forall w :: w in s.workers && w.Reporting? ==> w.soFar <= total)
    && (s.done > 0 ==> s.done in s.reports || Reporting(s.done) in s.workers)
  }

  lemma AddingCounts(s: State, s': State, source: seq<byte>, w: nat)
    requires Holdings(s, |source|) && Counts(s, |source|) && Step(s, s', source, w) && s.workers[w].Adding?
    ensures Counts(s', |source|)
  {
    var chunk := s.workers[w].chunk;
    assert Owned(s.workers[w]) == Some(chunk);
    SumMore(|source|, s.claims, s.added, chunk);
    SumBound(|source|, s'.claims, s'.added);
    assert s'.workers[w] == Reporting(s'.done);
  }

  lemma ReportingCounts(s: State, s': State, source: seq<byte>, w: nat)
    requires Counts(s, |source|) && Step(s, s', source, w) && s.workers[w].Reporting?
    ensures Counts(s', |source|)
  {
    if s.done > 0 && s.done !in s.reports && s.workers[w] != Reporting(s.done) {
      var v :| 0 <= v < |s.workers| && s.workers[v] == Reporting(s.done);
      assert s'.workers[v] == Reporting(s.done);
    }
    assert s'.reports[|s.reports|] == s.workers[w].soFar;
  }

  lemma StaysReporting(s: State, s': State, source: seq<byte>, w: nat, soFar: nat)
    requires Step(s, s', source, w) && !s.workers[w].Reporting? && Reporting(soFar) in s.workers
    ensures Reporting(soFar) in s'.workers
  {
    var v :| 0 <= v < |s.workers| && s.workers[v] == Reporting(soFar);
    assert s'.workers[v] == Reporting(soFar);
  }

  lemma OtherCounts(s: State, s': State, source: seq<byte>, w: nat)
    requires Holdings(s, |source|) && Counts(s, |source|) && Step(s, s', source, w)
    requires !s.workers[w].Reporting? && !s.workers[w].Adding?
    ensures Counts(s', |source|)
  {
    assert s'.workers == s.workers[w := s'.workers[w]] && !s'.workers[w].Reporting?;
    if Reporting(s.done) in s.workers {
      StaysReporting(s, s', source, w, s.done);
    }
    assert s.claims !in s.added;
  }

  lemma StepCounts(s: State, s': State, source: seq<byte>, w: nat)
    requires Holdings(s, |source|) && Counts(s, |source|) && Step(s, s', source, w)
    ensures Counts(s', |source|)
  {
    if s.workers[w].Adding? {
      AddingCounts(s, s', source, w);
    } else if s.workers[w].Reporting? {
      ReportingCounts(s, s', source, w);
    } else {
      OtherCounts(s, s', source, w);
    }
  }

  // ----- How often the counter is asked -----

  function Past(workers: seq<Worker>): nat {
    if workers == [] then 0 else Past(workers[1..]) + if workers[0] == Returned(true) then 1 else 0
  }

  lemma {:induction false} PastAfter(workers: seq<Worker>, w: nat, next: Worker)
    requires w < |workers| && workers[w] != Returned(true)
    ensures Past(workers[w := next]) == Past(workers) + if next == Returned(true) then 1 else 0
  {
    var after := workers[w := next];
    if w == 0 {
      assert after[1..] == workers[1..];
    } else {
      assert after[1..] == workers[1..][w - 1 := next];
      PastAfter(workers[1..], w - 1, next);
    }
  }

  lemma {:induction false} PastBound(workers: seq<Worker>)
    ensures Past(workers) <= |workers|
  {
    if workers != [] {
      PastBound(workers[1..]);
    }
  }

  ghost predicate ClaimsAreCounted(s: State, total: nat) {
    s.claims == Min(s.claims, Chunks(total)) + Past(s.workers)
  }

  lemma ChunksEnd(total: nat, claims: nat)
    ensures Start(claims) < total <==> claims < Chunks(total)
  {
  }

  lemma StepClaims(s: State, s': State, source: seq<byte>, w: nat)
    requires ClaimsAreCounted(s, |source|) && Step(s, s', source, w)
    ensures ClaimsAreCounted(s', |source|) && |s'.workers| == |s.workers|
  {
    assert s'.workers == s.workers[w := s'.workers[w]];
    PastAfter(s.workers, w, s'.workers[w]);
    ChunksEnd(|source|, s.claims);
  }

  // ----- Every schedule -----

  ghost predicate Inv(s: State, source: seq<byte>) {
    && Holdings(s, |source|) && Contents(s, source) && Counts(s, |source|) && ClaimsAreCounted(s, |source|)
    && |s.workers| == Min(STREAMS, Chunks(|source|))
  }

  lemma {:induction false} NonePast(workers: seq<Worker>)
    requires forall w :: 0 <= w < |workers| ==> workers[w] == Checking
    ensures Past(workers) == 0
  {
    if workers != [] {
      NonePast(workers[1..]);
    }
  }

  lemma InitHolds(s: State, source: seq<byte>)
    requires Init(s, |source|)
    ensures Inv(s, source)
  {
    NonePast(s.workers);
    forall c: nat | Start(c) < |source|
      ensures IsWritten(s, source, c, 0)
    {
    }
  }

  lemma StepHolds(s: State, s': State, source: seq<byte>)
    requires Inv(s, source) && Next(s, s', source)
    ensures Inv(s', source)
  {
    var w :| Step(s, s', source, w);
    StepHoldings(s, s', source, w);
    StepContents(s, s', source, w);
    StepCounts(s, s', source, w);
    StepClaims(s, s', source, w);
  }

  lemma {:induction false} InvHolds(t: seq<State>, source: seq<byte>, i: nat)
    requires IsTrace(t, source) && i < |t|
    ensures Inv(t[i], source)
  {
    if i == 0 {
      InitHolds(t[0], source);
    } else {
      InvHolds(t, source, i - 1);
      assert Next(t[i - 1], t[i - 1 + 1], source);
      StepHolds(t[i - 1], t[i], source);
    }
  }

  lemma HeldApart(s: State, total: nat, v: nat, w: nat)
    requires Disjoint(s, total) && v < w < |s.workers|
    requires Owned(s.workers[v]).Some? && Owned(s.workers[w]).Some?
    ensures Start(Owned(s.workers[v]).value) < total && Start(Owned(s.workers[w]).value) < total
    ensures Owned(s.workers[v]) != Owned(s.workers[w])
  {
  }

  lemma ChunksApart(total: nat, a: nat, b: nat)
    requires Start(a) < total && Start(b) < total && a != b
    ensures Start(a) + Size(total, a) <= Start(b) || Start(b) + Size(total, b) <= Start(a)
  {
  }

  /** Two workers never have their hands on the same part of the file, and no part lies
      outside it. */
  lemma RangesAreDisjoint(t: seq<State>, source: seq<byte>, i: nat, v: nat, w: nat)
    requires IsTrace(t, source) && i < |t| && v < w < |t[i].workers|
    requires Owned(t[i].workers[v]).Some? && Owned(t[i].workers[w]).Some?
    ensures var (a, b) := (Owned(t[i].workers[v]).value, Owned(t[i].workers[w]).value);
            && Start(a) < |source| && Start(b) < |source|
            && (Start(a) + Size(|source|, a) <= Start(b) || Start(b) + Size(|source|, b) <= Start(a))
  {
    InvHolds(t, source, i);
    HeldApart(t[i], |source|, v, w);
    ChunksApart(|source|, Owned(t[i].workers[v]).value, Owned(t[i].workers[w]).value);
  }

  lemma HeldIsPartly(s: State, source: seq<byte>, w: nat, c: nat)
    requires Inv(s, source) && w < |s.workers| && Owned(s.workers[w]) == Some(c) && Start(c) < |source|
    ensures IsPartly(s, source, c)
  {
    assert IsAsFar(s, source, s.workers[w]);
    match s.workers[w]
    case Fetching(_) => assert IsWritten(s, source, c, 0);
    case Writing(_, _, at) => assert IsWritten(s, source, c, at);
    case Adding(_) => assert IsWritten(s, source, c, CHUNK);
    case _ =>
  }

  /** Of every chunk a beginning is written, once. */
  lemma EveryChunkIsPartly(s: State, source: seq<byte>, c: nat)
    requires Inv(s, source) && Start(c) < |source|
    ensures IsPartly(s, source, c)
  {
    if c >= s.claims {
      assert IsWritten(s, source, c, 0);
    } else {
      assert IsInside(s, |source|, c);
      if c in s.added {
        assert IsWritten(s, source, c, CHUNK);
      } else if IsOwned(s, c) {
        var w :| 0 <= w < |s.workers| && Owned(s.workers[w]) == Some(c);
        HeldIsPartly(s, source, w, c);
      }
    }
  }

  /** At any moment a byte of the file was written at most once, and then with the source's. */
  lemma NoByteTwice(t: seq<State>, source: seq<byte>, i: nat, k: nat)
    requires IsTrace(t, source) && i < |t| && k < |source|
    ensures |t[i].hits| == |t[i].file| == |source|
    ensures t[i].hits[k] <= 1 && (t[i].hits[k] == 1 ==> t[i].file[k] == source[k])
  {
    InvHolds(t, source, i);
    var c := k / CHUNK;
    assert Start(c) <= k < Start(c) + CHUNK;
    EveryChunkIsPartly(t[i], source, c);
    var upto :| IsWritten(t[i], source, c, upto);
  }

  ghost predicate HasEnded(s: State) {
    forall w :: 0 <= w < |s.workers| ==> s.workers[w].Returned?
  }

  lemma AllAdded(s: State, source: seq<byte>)
    requires Inv(s, source) && HasEnded(s) && !s.failed
    ensures forall c: nat :: Start(c) < |source| ==> c in s.added && c < s.claims
  {
    forall c: nat | Start(c) < |source|
      ensures c in s.added && c < s.claims
    {
      ChunksEnd(|source|, c);
      assert s.workers[0].Returned? && s.workers[0] in s.workers;
      assert s.workers[0] == Returned(true);
      assert IsInside(s, |source|, c);
      assert !IsOwned(s, c);
    }
  }

  /** When all workers are back and no failure was recorded, every byte of the file was
      written exactly once, with the source's, and the last progress was the whole. */
  lemma NoFailureMeansComplete(t: seq<State>, source: seq<byte>, i: nat)
    requires IsTrace(t, source) && i < |t| && HasEnded(t[i]) && !t[i].failed
    ensures t[i].file == source && t[i].hits == seq(|source|, _ => 1)
    ensures t[i].done == |source| && (source != [] ==> |source| in t[i].reports)
  {
    InvHolds(t, source, i);
    var s := t[i];
    AllAdded(s, source);
    forall k | 0 <= k < |source|
      ensures s.hits[k] == 1 && s.file[k] == source[k]
    {
      assert IsWritten(s, source, k / CHUNK, CHUNK);
    }
    SumAll(|source|, s.claims, s.added);
    if source != [] {
      assert s.workers[0].Returned? && s.workers[0] in s.workers;
      assert Reporting(s.done) !in s.workers;
    }
  }

  lemma ProgressNeverExceeds(t: seq<State>, source: seq<byte>, i: nat, r: nat)
    requires IsTrace(t, source) && i < |t| && r in t[i].reports
    ensures r <= |source|
  {
    InvHolds(t, source, i);
  }

  /** The counter is asked at most once per chunk and once more per worker, so that it stays
      within 64 bits for every file that is nine chunks short of them. */
  lemma ClaimsAreBounded(t: seq<State>, source: seq<byte>, i: nat)
    requires IsTrace(t, source) && i < |t|
    ensures t[i].claims <= (|source| + 0x3ff_ffff) / 0x400_0000 + 8
    ensures t[i].claims * 0x400_0000 < |source| + 9 * 0x400_0000
  {
    InvHolds(t, source, i);
    PastBound(t[i].workers);
  }

  // ----- The machine does get somewhere -----

  /** One worker fetching a file of one chunk, before anything of it is written and after. */
  function Before(source: seq<byte>, worker: Worker, claims: nat): State {
    State([worker], claims, 0, false, seq(|source|, _ => 0), [], seq(|source|, _ => 0), {}, {})
  }

  function After(source: seq<byte>, worker: Worker, claims: nat, added: set<nat>, reports: seq<nat>): State {
    State([worker], claims, if added == {} then 0 else |source|, false, source, reports, seq(|source|, _ => 1), added, {})
  }

  function Fetched(source: seq<byte>): seq<State> {
    [Before(source, Checking, 0), Before(source, Listening, 0), Before(source, Claiming, 0),
     Before(source, Fetching(0), 1), Before(source, Writing(0, source, 0), 1)]
  }

  function Finished(source: seq<byte>): seq<State> {
    [After(source, Writing(0, source, |source|), 1, {}, []), After(source, Adding(0), 1, {}, []),
     After(source, Reporting(|source|), 1, {0}, []), After(source, Checking, 1, {0}, [|source|]),
     After(source, Listening, 1, {0}, [|source|]), After(source, Claiming, 1, {0}, [|source|]),
     After(source, Returned(true), 2, {0}, [|source|])]
  }

  lemma FetchingSteps(source: seq<byte>, i: nat)
    requires 0 < |source| <= CHUNK && i < 4
    ensures Next(Fetched(source)[i], Fetched(source)[i + 1], source)
  {
    var s, s' := Fetched(source)[i], Fetched(source)[i + 1];
    assert s'.workers == s.workers[0 := s'.workers[0]];
    if i == 3 {
      assert source[Start(0)..Start(0) + Size(|source|, 0)] == source;
      assert IsHonest(source, 0, source);
    }
    assert Step(s, s', source, 0);
  }

  lemma WritingAtOnce(source: seq<byte>)
    requires 0 < |source| <= CHUNK
    ensures Next(Fetched(source)[4], Finished(source)[0], source)
  {
    var s, s' := Fetched(source)[4], Finished(source)[0];
    assert s'.workers == s.workers[0 := s'.workers[0]];
    assert s'.file == Place(s.file, 0, source[0..|source|]) && s'.hits == Bumped(s.hits, 0, |source|);
    assert WriteStep(s, s', 0, 0, source, 0, |source|);
    assert Step(s, s', source, 0);
  }

  lemma FinishingSteps(source: seq<byte>, i: nat)
    requires 0 < |source| <= CHUNK && i < 6
    ensures Next(Finished(source)[i], Finished(source)[i + 1], source)
  {
    var s, s' := Finished(source)[i], Finished(source)[i + 1];
    assert s'.workers == s.workers[0 := s'.workers[0]];
    assert {} + {0} == {0} && [] + [|source|] == [|source|];
    assert Step(s, s', source, 0);
  }

  /** There are schedules in which all workers come back without a failure. */
  lemma AFileCanArrive(source: seq<byte>)
    requires 0 < |source| <= CHUNK
    ensures exists t: seq<State> :: IsTrace(t, source) && HasEnded(t[|t| - 1]) && !t[|t| - 1].failed
  {
    var a, b := Fetched(source), Finished(source);
    var t := a + b;
    assert Chunks(|source|) == 1;
    forall i | 0 <= i < |t| - 1
      ensures Next(t[i], t[i + 1], source)
    {
      if i < 4 {
        FetchingSteps(source, i);
      } else if i == 4 {
        WritingAtOnce(source);
      } else {
        FinishingSteps(source, i - 5);
        assert t[i + 1] == b[i - 5 + 1];
      }
    }
    assert IsTrace(t, source) && HasEnded(t[|t| - 1]);
  }
}
