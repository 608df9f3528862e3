/** Fetching a file in ranges, several at a time (`src/media.rs`): the workers as a state
    machine whose steps are the accesses to what they share. */
module Media {
  import opened Bytes

  const CHUNK: nat := 64 * 1024 * 1024
  const STREAMS: nat := 8

  function Min(a: nat, b: nat): nat {
    if a < b then a else b
  }

  /** Rounded up. */
  function Chunks(total: nat): nat {
    (total + CHUNK - 1) / CHUNK
  }

  /** Where one worker is, named after what comes next. */
  datatype Worker =
    | Checking                                  // has another failed?
    | Listening                                 // was there a Ctrl-C?
    | Claiming
    | Fetching(chunk: nat)
    | Writing(chunk: nat, bytes: seq<byte>, at: nat)
    | Adding(chunk: nat)
    | Reporting(soFar: nat)
    | Failing(chunk: nat)
    | Returned(past: bool)                      // `past`: its last claim lay past the end

  datatype State = State(
    workers: seq<Worker>,
    claims: nat,               // the shared counter is `claims * CHUNK`
    done: nat,
    failed: bool,
    file: seq<byte>,
    reports: seq<nat>,         // what progress was reported
    // What has happened so far:
    hits: seq<nat>,            // how often each byte of the file was written
    added: set<nat>,           // the chunks counted in `done`
    abandoned: set<nat>)

  function Start(chunk: nat): nat { chunk * CHUNK }

  function Size(total: nat, chunk: nat): nat
    requires Start(chunk) <= total
  {
    Min(CHUNK, total - Start(chunk))
  }

  function Move(s: State, w: nat, next: Worker): State
    requires w < |s.workers|
  {
    s.(workers := s.workers[w := next])
  }

  /** `bytes` put into `file` at `offset`. */
  function Place<T>(file: seq<T>, offset: nat, bytes: seq<T>): seq<T>
    requires offset + |bytes| <= |file|
  {
    file[..offset] + bytes + file[offset + |bytes|..]
  }

  function Bumped(hits: seq<nat>, first: nat, last: nat): seq<nat> {
    seq(|hits|, i requires 0 <= i < |hits| => if first <= i < last then hits[i] + 1 else hits[i])
  }

  ghost predicate Init(s: State, total: nat) {
    && |s.workers| == Min(STREAMS, Chunks(total)) && (forall w :: 0 <= w < |s.workers| ==> s.workers[w] == Checking)
    && s.claims == 0 && s.done == 0 && !s.failed && s.reports == []
    && |s.file| == total && s.hits == seq(total, _ => 0) && s.added == {} && s.abandoned == {}
  }

  /** A reply to a range request: if it has the length asked for, it is what was asked for. */
  predicate IsHonest(source: seq<byte>, chunk: nat, bytes: seq<byte>)
    requires Start(chunk) < |source|
  {
    var size := Size(|source|, chunk);
    |bytes| == size ==> bytes == source[Start(chunk)..Start(chunk) + size]
  }

  ghost predicate Step(s: State, s': State, source: seq<byte>, w: nat) {
    && w < |s.workers|
    && match s.workers[w]
       case Checking => s' == Move(s, w, if s.failed then Returned(false) else Listening)
       case Listening => s' == Move(s, w, Claiming) || s' == Move(s, w, Returned(false)).(failed := true)
       case Claiming =>
         s' == Move(s, w, if Start(s.claims) < |source| then Fetching(s.claims) else Returned(true)).(claims := s.claims + 1)
       case Fetching(chunk) =>
         Start(chunk) < |source|
         && (s' == Move(s, w, Failing(chunk))
             || exists bytes :: IsHonest(source, chunk, bytes)
                  && s' == Move(s, w, if |bytes| == Size(|source|, chunk) then Writing(chunk, bytes, 0) else Failing(chunk)))
       case Writing(chunk, bytes, at) =>
         || (at == |bytes| && s' == Move(s, w, Adding(chunk)))
         || (at < |bytes| && s' == Move(s, w, Failing(chunk)))
         || exists n :: WriteStep(s, s', w, chunk, bytes, at, n)
       case Adding(chunk) =>
         Start(chunk) < |source|
         && var soFar := s.done + Size(|source|, chunk);
            s' == Move(s, w, Reporting(soFar)).(done := soFar, added := s.added + {chunk})
       case Reporting(soFar) => s' == Move(s, w, Checking).(reports := s.reports + [soFar])
       case Failing(chunk) =>
         s' == Move(s, w, Returned(false)).(failed := true, abandoned := s.abandoned + {chunk})
       case Returned(_) => false
  }

  /** A write that took `n` of the bytes left. */
  predicate WriteStep(s: State, s': State, w: nat, chunk: nat, bytes: seq<byte>, at: nat, n: nat)
    requires w < |s.workers|
  {
    var offset := Start(chunk) + at;
    && 0 < n && at + n <= |bytes| && offset + n <= |s.file|
    && s' == Move(s, w, Writing(chunk, bytes, at + n))
               .(file := Place(s.file, offset, bytes[at..at + n]), hits := Bumped(s.hits, offset, offset + n))
  }

  ghost predicate Next(s: State, s': State, source: seq<byte>) {
    exists w :: Step(s, s', source, w)
  }

  ghost predicate IsTrace(t: seq<State>, source: seq<byte>) {
    && t != [] && Init(t[0], |source|)
    && forall i :: 0 <= i < |t| - 1 ==> Next(t[i], t[i + 1], source)
  }
}
