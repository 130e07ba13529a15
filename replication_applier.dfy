/** The replication applier controller of one database: the state machine
    that starts, stops and reconfigures the background apply worker, and the
    interruptible sleep the worker uses between polls.

    Locking is not modelled: every public operation is one atomic step on the
    object. The worker thread is a ghost boolean, the state file a boolean. */
module Applier {
  import opened Basics

  /** The fields of the applier configuration the controller inspects; the
      connection-tuning parameters are opaque to it and left out. */
  datatype Configuration = Configuration(endpoint: string, database: string, autoStart: bool)

  /** The last error recorded in the applier state (its timestamp is left out). */
  datatype ApplierError = ApplierError(code: ErrorCode, message: string)

  /** The longest single sleep `wait` performs. */
  const SleepChunk: nat := 500 * 1000

  const ShutDownProgress := "applier shut down"
  const StoppedProgress := "applier stopped"
  const NoEndpointMessage := "no endpoint configured"

  class ReplicationApplier {
    // the applier state (_state)
    var active: bool
    var preventStart: bool
    var stopInitialSynchronization: bool
    var lastError: Option<ApplierError>
    var progressMsg: string

    var configuration: Configuration
    /** _terminateThread: raised to tell the worker to finish. */
    var terminateThread: bool
    /** Whether _thread currently owns a worker. */
    ghost var hasThread: bool
    /** Whether the persisted state file exists (TRI_ExistsFile). */
    var stateFileExists: bool

    const databaseName: string
    /** TRI_errno_string: the default text of an error code. */
    const errnoString: ErrorCode -> string

    /** The applier is never running while starts are blocked. */
    ghost predicate Valid()
      reads this
    {
      !(active && preventStart)
    }

    constructor (configuration: Configuration, databaseName: string,
                 errnoString: ErrorCode -> string, stateFileExists: bool)
      ensures Valid()
      ensures !active && !preventStart && !stopInitialSynchronization && lastError == None
      ensures progressMsg == "applier initially created for " + databaseName
      ensures this.configuration == configuration && this.databaseName == databaseName
      ensures this.errnoString == errnoString
      ensures !terminateThread && !hasThread && this.stateFileExists == stateFileExists
    {
      this.configuration := configuration;
      this.databaseName := databaseName;
      this.errnoString := errnoString;
      this.stateFileExists := stateFileExists;
      active, preventStart, stopInitialSynchronization := false, false, false;
      lastError := None;
      terminateThread := false;
      hasThread := false;
      progressMsg := "applier initially created for " + databaseName;
    }

    method IsRunning() returns (running: bool)
      ensures running <==> active
    {
      running := active;
    }

    /** Blocks later starts. Fails if the applier runs or starts are already blocked. */
    method PreventStart() returns (res: ErrorCode)
      requires Valid()
      modifies this`preventStart, this`stopInitialSynchronization
      ensures Valid()
      ensures active ==> res == ReplicationRunning
      ensures !active && old(preventStart) ==> res == Locked
      ensures !active && !old(preventStart) ==> res == NoError
      ensures res == NoError ==> preventStart && !stopInitialSynchronization
      ensures res != NoError ==>
                preventStart == old(preventStart)
                && stopInitialSynchronization == old(stopInitialSynchronization)
    {
      if active {
        return ReplicationRunning;
      }
      if preventStart {
        return Locked;
      }
      stopInitialSynchronization := false;
      preventStart := true;
      res := NoError;
    }

    /** Lifts a block set by PreventStart; misuse without a block is an internal error. */
    method AllowStart() returns (res: ErrorCode)
      requires Valid()
      modifies this`preventStart, this`stopInitialSynchronization
      ensures Valid()
      ensures res == (if old(preventStart) then NoError else Internal)
      ensures res == NoError ==> !preventStart && !stopInitialSynchronization
      ensures res != NoError ==>
                preventStart == old(preventStart)
                && stopInitialSynchronization == old(stopInitialSynchronization)
    {
      if !preventStart {
        return Internal;
      }
      stopInitialSynchronization := false;
      preventStart := false;
      res := NoError;
    }

    /** Starts the worker. The result is the code of the exception the
        source throws, or NoError when it returns normally. threadStarted is
        the outcome of launching the worker thread. */
    method Start(threadStarted: bool) returns (res: ErrorCode)
      requires Valid()
      // the source first spins until a previous worker's teardown has
      // lowered the termination flag
      requires !terminateThread
      modifies this`active, this`lastError, this`terminateThread, this`hasThread
      ensures Valid()
      // blocked: nothing changes
      ensures preventStart ==>
                res == Locked && active == old(active) && lastError == old(lastError)
                && hasThread == old(hasThread) && !terminateThread
      // already running: nothing changes
      ensures !preventStart && old(active) ==>
                res == NoError && active && lastError == old(lastError)
                && hasThread == old(hasThread) && !terminateThread
      // unusable configuration: the error is recorded, the applier stays inactive
      ensures !preventStart && !old(active)
              && (configuration.endpoint == "" || configuration.database == "") ==>
                res == InvalidApplierConfiguration && !active
                && lastError == Some(ApplierError(InvalidApplierConfiguration, NoEndpointMessage))
                && hasThread == old(hasThread) && !terminateThread
      // started: error cleared, flag lowered, marked active (even when the
      // thread fails to launch)
      ensures !preventStart && !old(active)
              && configuration.endpoint != "" && configuration.database != "" ==>
                active && lastError == None && !terminateThread
                && hasThread == threadStarted
                && res == (if threadStarted then NoError else Internal)
    {
      if preventStart {
        return Locked;
      }
      if active {
        return NoError;
      }
      if configuration.endpoint == "" || configuration.database == "" {
        res := SetErrorNoLock(InvalidApplierConfiguration, NoEndpointMessage);
        return InvalidApplierConfiguration;
      }
      lastError := None;
      terminateThread := false;
      active := true;
      hasThread := true;
      if !threadStarted {
        hasThread := false;
        return Internal;
      }
      res := NoError;
    }

    /** Stops the worker. joinThread says whether the caller waits for it. */
    method Stop(resetError: bool, joinThread: bool)
      requires Valid()
      modifies this`stopInitialSynchronization, this`active, this`terminateThread,
               this`progressMsg, this`lastError, this`hasThread
      ensures Valid()
      ensures stopInitialSynchronization && !active
      ensures !old(active) ==>
                terminateThread == old(terminateThread) && progressMsg == old(progressMsg)
                && lastError == old(lastError) && hasThread == old(hasThread)
      ensures old(active) ==>
                progressMsg == ShutDownProgress
                && lastError == (if resetError then None else old(lastError))
                && terminateThread == !joinThread
                && hasThread == (old(hasThread) && !joinThread)
    {
      stopInitialSynchronization := true;
      if !active {
        return;
      }
      active := false;
      terminateThread := true;
      SetProgressNoLock(ShutDownProgress);
      if resetError {
        lastError := None;
      }
      if joinThread {
        hasThread := false;
        terminateThread := false;
      }
    }

    /** Stops the worker for good and waits for it; a no-op when inactive. */
    method Shutdown()
      requires Valid()
      modifies this`active, this`lastError, this`terminateThread, this`progressMsg, this`hasThread
      ensures Valid()
      ensures !active
      ensures !old(active) ==>
                lastError == old(lastError) && terminateThread == old(terminateThread)
                && progressMsg == old(progressMsg) && hasThread == old(hasThread)
      ensures old(active) ==>
                lastError == None && progressMsg == StoppedProgress
                && !hasThread && !terminateThread
    {
      if !active {
        return;
      }
      active := false;
      lastError := None;
      terminateThread := true;
      SetProgressNoLock(StoppedProgress);
      hasThread := false;
      terminateThread := false;
    }

    /** Resets the state and deletes the state file. unlinkResult is what
        deleting the file reports; it is consulted only if the file exists. */
    method RemoveState(unlinkResult: ErrorCode) returns (res: ErrorCode)
      requires Valid()
      modifies this`active, this`preventStart, this`stopInitialSynchronization,
               this`lastError, this`progressMsg, this`stateFileExists
      ensures Valid()
      ensures !active && !preventStart && !stopInitialSynchronization
      ensures lastError == None && progressMsg == ""
      ensures !old(stateFileExists) ==> res == NoError && !stateFileExists
      ensures old(stateFileExists) ==>
                res == unlinkResult && stateFileExists == (unlinkResult != NoError)
    {
      active, preventStart, stopInitialSynchronization := false, false, false;
      lastError := None;
      progressMsg := "";
      res := NoError;
      if stateFileExists {
        if unlinkResult != NoError {
          return unlinkResult;
        }
        stateFileExists := false;
      }
    }

    /** Replaces the configuration; refused without an endpoint or while running. */
    method Reconfigure(newConfiguration: Configuration) returns (res: ErrorCode)
      requires Valid()
      modifies this`configuration
      ensures Valid()
      ensures newConfiguration.endpoint == "" ==> res == InvalidApplierConfiguration
      ensures newConfiguration.endpoint != "" && active ==> res == ReplicationRunning
      ensures newConfiguration.endpoint != "" && !active ==> res == NoError
      ensures configuration == (if res == NoError then newConfiguration else old(configuration))
      ensures configuration != old(configuration) ==> !active
    {
      if newConfiguration.endpoint == "" {
        return InvalidApplierConfiguration;
      }
      if active {
        return ReplicationRunning;
      }
      configuration := newConfiguration;
      res := NoError;
    }

    /** Records an error; an empty message is replaced by the code's default text. */
    method SetErrorNoLock(errorCode: ErrorCode, msg: string) returns (res: ErrorCode)
      modifies this`lastError
      ensures res == errorCode
      ensures lastError.Some? && lastError.value.code == errorCode
      ensures lastError.value.message == (if msg == "" then errnoString(errorCode) else msg)
    {
      lastError := Some(ApplierError(errorCode, if msg == "" then errnoString(errorCode) else msg));
      res := errorCode;
    }

    method SetProgressNoLock(msg: string)
      modifies this`progressMsg
      ensures progressMsg == msg
    {
      progressMsg := msg;
    }
  }

  /** Client runs through the applier's lifecycle, showing what callers can
      conclude from the contracts alone. First: a blocked applier refuses to
      start until starts are allowed again, and a second start is a no-op. */
  method PreventAllowScenario(config: Configuration, errnoString: ErrorCode -> string)
    requires config.endpoint != "" && config.database != ""
  {
    var a := new ReplicationApplier(config, "db", errnoString, false);
    var r := a.PreventStart();
    assert r == NoError;
    r := a.Start(true);
    assert r == Locked && !a.active;
    r := a.PreventStart();
    assert r == Locked;
    r := a.AllowStart();
    assert r == NoError;
    r := a.Start(true);
    assert r == NoError && a.active && a.lastError == None;
    r := a.Start(true);
    assert r == NoError && a.active;
  }

  /** A running applier refuses to be blocked or reconfigured; stopping it
      twice is harmless, and so is removing its state twice. */
  method RunningScenario(config: Configuration, errnoString: ErrorCode -> string)
    requires config.endpoint != "" && config.database != ""
  {
    var a := new ReplicationApplier(config, "db", errnoString, false);
    var r := a.Start(true);
    assert r == NoError && a.active;
    r := a.PreventStart();
    assert r == ReplicationRunning;
    r := a.Reconfigure(Configuration("tcp://peer:8529", "db", false));
    assert r == ReplicationRunning && a.configuration == config;
    a.Stop(false, true);
    assert !a.active && a.stopInitialSynchronization && !a.terminateThread;
    a.Stop(true, true);
    assert !a.active;
    r := a.RemoveState(Code(2));
    assert r == NoError;
    r := a.RemoveState(Code(2));
    assert r == NoError;
  }

  // ---------------------------------------------------------------------
  // wait(sleepTime): chunked, interruptible sleep

  /** The sleeps an uninterrupted wait of sleepTime performs: full chunks,
      then the remainder if any. */
  function Chunks(sleepTime: nat): (sleeps: seq<nat>)
    ensures sleeps == [] <==> sleepTime == 0
    decreases sleepTime
  {
    if sleepTime >= SleepChunk then [SleepChunk] + Chunks(sleepTime - SleepChunk)
    else if sleepTime > 0 then [sleepTime]
    else []
  }

  /** No sleep of a wait is empty or longer than a chunk. */
  lemma {:induction false} ChunksBounded(sleepTime: nat, prefix: seq<nat>)
    requires prefix <= Chunks(sleepTime)
    ensures forall i :: 0 <= i < |prefix| ==> 0 < prefix[i] <= SleepChunk
    decreases sleepTime
  {
    if prefix != [] {
      if sleepTime >= SleepChunk {
        var rest := Chunks(sleepTime - SleepChunk);
        assert prefix[1..] <= rest;
        ChunksBounded(sleepTime - SleepChunk, prefix[1..]);
        forall i | 0 < i < |prefix| ensures 0 < prefix[i] <= SleepChunk {
          assert prefix[i] == prefix[1..][i - 1];
        }
      }
    }
  }

  function Sum(s: seq<nat>): nat
  {
    if s == [] then 0 else s[0] + Sum(s[1..])
  }

  lemma {:induction false} SumAppend(a: seq<nat>, b: seq<nat>)
    ensures Sum(a + b) == Sum(a) + Sum(b)
  {
    if a == [] {
      assert a + b == b;
    } else {
      assert (a + b)[1..] == a[1..] + b;
      SumAppend(a[1..], b);
    }
  }

  /** An uninterrupted wait sleeps exactly the requested time. */
  lemma {:induction false} ChunksSum(sleepTime: nat)
    ensures Sum(Chunks(sleepTime)) == sleepTime
    decreases sleepTime
  {
    if sleepTime >= SleepChunk {
      var rest := Chunks(sleepTime - SleepChunk);
      assert ([SleepChunk] + rest)[1..] == rest;
      ChunksSum(sleepTime - SleepChunk);
    }
  }

  /** Cancellation latency: if the observation made after k - 1 sleeps still
      saw no termination request, where the request was raised T time units
      into the wait, then the observation after k sleeps is made less than
      one chunk after the request. */
  lemma CancellationLatency(sleepTime: nat, k: nat, raisedAt: nat)
    requires 0 < k <= |Chunks(sleepTime)|
    requires Sum(Chunks(sleepTime)[..k - 1]) < raisedAt
    ensures Sum(Chunks(sleepTime)[..k]) < raisedAt + SleepChunk
  {
    var c := Chunks(sleepTime);
    ChunksBounded(sleepTime, c);
    assert c[..k] == c[..k - 1] + [c[k - 1]];
    SumAppend(c[..k - 1], [c[k - 1]]);
    assert Sum([c[k - 1]]) == c[k - 1] + Sum([]);
  }

  /** The loop state of `wait`: the sleeps done and the time remaining
      together make up the schedule of the requested time. */
  ghost predicate OnSchedule(slept: seq<nat>, remaining: nat, sleepTime: nat)
  {
    slept + Chunks(remaining) == Chunks(sleepTime) && Sum(slept) + remaining == sleepTime
  }

  /** One sleep of wait: with time remaining, the next sleep lasts
      min(remaining, SleepChunk) and keeps the loop on schedule. */
  lemma SleepStep(slept: seq<nat>, remaining: nat, sleepTime: nat, chunk: nat)
    requires remaining > 0 && chunk == (if remaining >= SleepChunk then SleepChunk else remaining)
    requires OnSchedule(slept, remaining, sleepTime)
    ensures OnSchedule(slept + [chunk], remaining - chunk, sleepTime)
  {
    var rest := Chunks(remaining - chunk);
    if remaining < SleepChunk {
      assert rest == [];
    }
    assert Chunks(remaining) == [chunk] + rest;
    assert (slept + [chunk]) + rest == slept + ([chunk] + rest);
    SumAppend(slept, [chunk]);
    assert Sum([chunk]) == chunk + Sum([]);
  }

  /** What `wait` promises, from the state of its loop at a return: the
      sleeps so far are a prefix of the schedule, every look before the last
      saw no termination, and the last look decides the result. */
  lemma WaitExit(sleepTime: nat, seenRaised: set<nat>, ok: bool, slept: seq<nat>, remaining: nat)
    requires OnSchedule(slept, remaining, sleepTime)
    requires forall k :: 0 <= k < |slept| ==> k !in seenRaised
    requires ok <==> |slept| !in seenRaised
    requires ok ==> remaining == 0
    ensures slept <= Chunks(sleepTime)
    ensures forall i :: 0 <= i < |slept| ==> 0 < slept[i] <= SleepChunk
    ensures Sum(slept) <= sleepTime
    ensures forall k :: 0 <= k < |slept| ==> k !in seenRaised
    ensures ok <==> |slept| !in seenRaised
    ensures ok ==> slept == Chunks(sleepTime) && Sum(slept) == sleepTime
  {
    assert slept == Chunks(sleepTime)[..|slept|];
    ChunksBounded(sleepTime, slept);
    if ok {
      assert Chunks(remaining) == [];
    }
  }

  /** What a wait that ended with ok after the sleeps slept promises: the
      sleeps are a prefix of the schedule, no look before the last found the
      flag raised, the last look decides the result, and a true result
      completes the schedule. */
  ghost predicate WaitOutcome(sleepTime: nat, seenRaised: set<nat>, ok: bool, slept: seq<nat>)
  {
    && slept <= Chunks(sleepTime)
    && (forall k :: 0 <= k < |slept| ==> k !in seenRaised)
    && (ok <==> |slept| !in seenRaised)
    && (ok ==> slept == Chunks(sleepTime))
  }

  /** The time into an uninterrupted wait at which look k is made. */
  ghost function LookTime(sleepTime: nat, k: nat): nat
    requires k <= |Chunks(sleepTime)|
  {
    Sum(Chunks(sleepTime)[..k])
  }

  /** A termination raised raisedAt time units into a wait, and seen by every
      look made from then on, makes the wait return false, and it returns
      less than one chunk after the termination was raised. */
  lemma WaitNoticesTermination(sleepTime: nat, seenRaised: set<nat>, raisedAt: nat,
                               ok: bool, slept: seq<nat>)
    requires WaitOutcome(sleepTime, seenRaised, ok, slept)
    requires raisedAt <= sleepTime
    requires forall k :: 0 <= k <= |Chunks(sleepTime)| && raisedAt <= LookTime(sleepTime, k) ==>
               k in seenRaised
    ensures !ok
    ensures Sum(slept) < raisedAt + SleepChunk
  {
    var c := Chunks(sleepTime);
    var n := |slept|;
    assert slept == c[..n];
    // the last look of the whole schedule is made after raisedAt
    ChunksSum(sleepTime);
    assert c[..|c|] == c;
    assert |c| in seenRaised;
    if n > 0 {
      assert n - 1 !in seenRaised;
      assert LookTime(sleepTime, n - 1) < raisedAt;
      CancellationLatency(sleepTime, n, raisedAt);
    }
  }

  /** ReplicationApplier::wait. The termination flag is read once before
      any sleep (look 0) and once after each sleep (look k after the k-th).
      Another thread raises the flag, so what each look sees is an input:
      seenRaised holds the indices of the looks that find it raised. slept
      lists the sleeps performed. */
  method Wait(sleepTime: nat, seenRaised: set<nat>) returns (ok: bool, slept: seq<nat>)
    ensures slept <= Chunks(sleepTime)
    ensures forall i :: 0 <= i < |slept| ==> 0 < slept[i] <= SleepChunk
    ensures Sum(slept) <= sleepTime
    ensures forall k :: 0 <= k < |slept| ==> k !in seenRaised
    ensures ok <==> |slept| !in seenRaised
    ensures ok ==> slept == Chunks(sleepTime) && Sum(slept) == sleepTime
    ensures 0 in seenRaised ==> !ok && slept == []
    ensures WaitOutcome(sleepTime, seenRaised, ok, slept)
  {
    var remaining: nat := sleepTime;
    slept := [];
    if 0 in seenRaised {
      return false, [];
    }
    if remaining > 0 {
      while remaining >= SleepChunk
        invariant OnSchedule(slept, remaining, sleepTime)
        invariant forall k :: 0 <= k <= |slept| ==> k !in seenRaised
        decreases remaining
      {
        SleepStep(slept, remaining, sleepTime, SleepChunk);
        slept := slept + [SleepChunk];
        remaining := remaining - SleepChunk;
        if |slept| in seenRaised {
          WaitExit(sleepTime, seenRaised, false, slept, remaining);
          return false, slept;
        }
      }
      if remaining > 0 {
        SleepStep(slept, remaining, sleepTime, remaining);
        slept := slept + [remaining];
        remaining := 0;
        if |slept| in seenRaised {
          WaitExit(sleepTime, seenRaised, false, slept, remaining);
          return false, slept;
        }
      }
    }
    WaitExit(sleepTime, seenRaised, true, slept, remaining);
    ok := true;
  }
}
