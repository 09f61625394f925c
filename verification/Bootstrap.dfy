/**
 Single-flight bootstrap of the pairing DHT. Any number of callers share one worker; callers and
 worker meet in critical sections under one mutex and on a channel that the worker closes.
 */
module Bootstrap {
  import opened Outcomes

  datatype BootError = DialFailed(text: string) | NoPeers(list: seq<string>) | ContextDone

  // ---------------------------------------------------------------- the worker's retry loop

  /** What one pass of the retry loop meets: whether the pause before it was cut short, what the two
      looks at the context see, and how the dial ends. */
  datatype Look = Look(interrupted: bool, doneFirst: bool, doneSecond: bool, dial: Option<string>, peers: nat)

  const ATTEMPTS := 4

  /** A done context stays done. */
  ghost predicate Possible(looks: seq<Look>) {
    && |looks| == ATTEMPTS
    && forall k :: 0 <= k < ATTEMPTS ==>
         (looks[k].interrupted ==> looks[k].doneFirst) && (looks[k].doneFirst ==> looks[k].doneSecond)
  }

  function AcceptedBootstrap(dial: Option<string>, peers: nat, peerList: seq<string>): Option<BootError> {
    match dial
    case Some(text) => Some(DialFailed(text))
    case None => if peers > 0 then None else Some(NoPeers(peerList))
  }

  /** The dial reported no error and a peer is in the routing table. */
  predicate Connects(look: Look) {
    look.dial.None? && look.peers > 0
  }

  /** The loop reaches the dial of pass `k`. */
  ghost predicate Dials(looks: seq<Look>, k: nat)
    requires k < |looks|
  {
    !looks[k].doneSecond && forall j :: 0 <= j < k ==> !looks[j].doneSecond && !Connects(looks[j])
  }

  /** The dial of pass `k` is the last: it connects, or the next pass ends before its dial, or there is none. */
  ghost predicate LastDial(looks: seq<Look>, k: nat)
    requires k < |looks|
  {
    Dials(looks, k) && (Connects(looks[k]) || k == |looks| - 1 || looks[k + 1].doneSecond)
  }

  /** The context ends between the two looks of the first pass. */
  predicate SlipsThrough(looks: seq<Look>)
    requires looks != []
  {
    !looks[0].doneFirst && looks[0].doneSecond
  }

  ghost predicate Succeeds(looks: seq<Look>)
    requires |looks| == ATTEMPTS
  {
    SlipsThrough(looks) || exists k: nat :: k < ATTEMPTS && Dials(looks, k) && Connects(looks[k])
  }

  /** The worker ends without an error exactly when a dial it reached connected, or when the context
      ended between the two looks of the first pass, where no error has been recorded yet. */
  method Dial(looks: seq<Look>, peerList: seq<string>) returns (err: Option<BootError>)
    requires Possible(looks)
    ensures err.None? <==> Succeeds(looks)
    ensures err.Some? && err.value.ContextDone? ==> exists k: nat :: k < ATTEMPTS && looks[k].doneFirst
    ensures err.Some? && !err.value.ContextDone? ==>
              exists k: nat :: k < ATTEMPTS && LastDial(looks, k) &&
                err == AcceptedBootstrap(looks[k].dial, looks[k].peers, peerList)
  {
    err := None;
    var attempt := 0;
    while attempt < ATTEMPTS
      invariant 0 <= attempt <= ATTEMPTS
      invariant attempt > 0 ==> err.Some? && !err.value.ContextDone?
      invariant attempt == 0 ==> err.None?
      invariant forall j :: 0 <= j < attempt ==> !looks[j].doneSecond && !Connects(looks[j])
      invariant attempt > 0 ==> err == AcceptedBootstrap(looks[attempt - 1].dial, looks[attempt - 1].peers, peerList)
    {
      var look := looks[attempt];
      if attempt > 0 && look.interrupted {
        err := Some(ContextDone);
      }
      if look.doneFirst && err.None? {
        err := Some(ContextDone);
      }
      if look.doneSecond {
        assert forall k: nat :: k < ATTEMPTS && Dials(looks, k) ==> k < attempt;
        assert attempt > 0 ==> LastDial(looks, attempt - 1);
        return;
      }
      err := AcceptedBootstrap(look.dial, look.peers, peerList);
      if err.None? {
        assert Dials(looks, attempt);
        return;
      }
      attempt := attempt + 1;
    }
    assert LastDial(looks, ATTEMPTS - 1);
  }

  /** A worker can report success without having reached any peer. */
  lemma SuccessWithoutPeers()
    ensures exists looks ::
              Possible(looks) && SlipsThrough(looks) && forall k: nat :: k < ATTEMPTS ==> !Dials(looks, k)
  {
    var late := Look(false, false, true, None, 0);
    assert forall k: nat :: k < ATTEMPTS ==> !Dials([late, late, late, late], k);
    assert Possible([late, late, late, late]);
  }

  // ---------------------------------------------------------------- the critical sections

  /** A wait channel, numbered in the order of creation. */
  type Channel = nat

  datatype Failure = Failed(error: BootError) | Cancelled | DidNotFinish
  datatype Entry = Already | Wait(channel: Channel, starts: bool)

  /** The router's fields under its mutex, with the channels the runtime has made and how often each was closed. */
  datatype Shared = Shared(bootstrapped: bool, err: Option<BootError>, wait: Option<Channel>,
                           made: nat, closed: multiset<Channel>)

  function Entering(s: Shared): (Shared, Entry) {
    if s.bootstrapped then (s, Already)
    else match s.wait
         case Some(c) => (s, Wait(c, false))
         case None => (s.(wait := Some(s.made), made := s.made + 1), Wait(s.made, true))
  }

  function Ending(s: Shared, channel: Channel, err: Option<BootError>): Shared {
    s.(bootstrapped := s.bootstrapped || err.None?, err := err, wait := None,
       closed := s.closed + multiset{channel})
  }

  function Answer(s: Shared): Option<Failure> {
    if s.bootstrapped then None
    else match s.err
         case Some(e) => Some(Failed(e))
         case None => Some(DidNotFinish)
  }

  class Router {
    var bootstrapped: bool
    var bootstrapErr: Option<BootError>
    var bootstrapWait: Option<Channel>
    var made: nat
    var closed: multiset<Channel>

    function State(): Shared reads this {
      Shared(bootstrapped, bootstrapErr, bootstrapWait, made, closed)
    }

    constructor ()
      ensures State() == Fresh()
    {
      bootstrapped, bootstrapErr, bootstrapWait, made, closed := false, None, None, 0, multiset{};
    }

    /** A caller's first section: already connected, or the channel to wait on. */
    method Enter() returns (entry: Entry)
      modifies this
      ensures (State(), entry) == Entering(old(State()))
      ensures entry.Already? <==> old(bootstrapped)
      ensures entry.Wait? ==> bootstrapWait == Some(entry.channel) && (entry.starts <==> old(bootstrapWait).None?)
      ensures entry.Wait? && entry.starts ==> entry.channel == old(made) && made == old(made) + 1
      ensures !(entry.Wait? && entry.starts) ==> State() == old(State())
      ensures bootstrapped == old(bootstrapped) && bootstrapErr == old(bootstrapErr) && closed == old(closed)
    {
      if bootstrapped {
        return Already;
      }
      var starts := bootstrapWait.None?;
      if starts {
        bootstrapWait, made := Some(made), made + 1;
      }
      entry := Wait(bootstrapWait.value, starts);
    }

    /** A caller's second section, after its channel was closed. */
    method Leave() returns (failure: Option<Failure>)
      ensures failure == Answer(State())
      ensures failure.None? <==> bootstrapped
      ensures !bootstrapped && bootstrapErr.Some? ==> failure == Some(Failed(bootstrapErr.value))
    {
      if bootstrapped {
        return None;
      }
      if bootstrapErr.Some? {
        return Some(Failed(bootstrapErr.value));
      }
      failure := Some(DidNotFinish);
    }

    /** The worker's section, after its retry loop. */
    method End(channel: Channel, err: Option<BootError>)
      modifies this
      ensures State() == Ending(old(State()), channel, err)
      ensures bootstrapped == (old(bootstrapped) || err.None?) && bootstrapErr == err && bootstrapWait.None?
      ensures closed == old(closed) + multiset{channel} && made == old(made)
    {
      if err.None? {
        bootstrapped := true;
        bootstrapErr := None;
      } else {
        bootstrapErr := err;
      }
      bootstrapWait := None;
      closed := closed + multiset{channel};
    }
  }

  function Fresh(): Shared {
    Shared(false, None, None, 0, multiset{})
  }

  // ---------------------------------------------------------------- runs

  type CallerId = nat

  /** How a caller left: without waiting, by giving up, or with an answer after its channel was closed. */
  datatype Leaving = AtOnce | ByCancel(asked: Channel) | ByReturn(asked: Channel)

  datatype Caller =
    | Waiting(channel: Channel)
    | Woken(channel: Channel)
    | Returned(left: Leaving, failure: Option<Failure>)

  /** `workers` are the live ones, by their channel; `ended` lists how the others ended, in order. */
  datatype World = World(shared: Shared, callers: map<CallerId, Caller>, workers: set<Channel>,
                         ended: seq<Ended>)
  datatype Ended = Ended(channel: Channel, looks: seq<Look>, err: Option<BootError>)

  datatype Step =
    | Call(caller: CallerId)
    | Wake(caller: CallerId)
    | Cancel(caller: CallerId)
    | Return(caller: CallerId)
    | Finish(channel: Channel, looks: seq<Look>, err: Option<BootError>)

  function Begin(): World {
    World(Fresh(), map[], {}, [])
  }

  /** The ending that `Dial` gives these looks. */
  ghost predicate EndsAs(looks: seq<Look>, err: Option<BootError>) {
    Possible(looks) && (err.None? <==> Succeeds(looks))
  }

  ghost predicate Enabled(w: World, step: Step) {
    match step
    case Call(c) => c !in w.callers
    case Wake(c) => c in w.callers && w.callers[c].Waiting? && w.shared.closed[w.callers[c].channel] > 0
    case Cancel(c) => c in w.callers && w.callers[c].Waiting?
    case Return(c) => c in w.callers && w.callers[c].Woken?
    case Finish(ch, looks, err) => ch in w.workers && EndsAs(looks, err)
  }

  ghost function After(w: World, step: Step): World
    requires Enabled(w, step)
  {
    match step
    case Call(c) =>
      var (shared, entry) := Entering(w.shared);
      var caller := if entry.Already? then Returned(AtOnce, None) else Waiting(entry.channel);
      w.(shared := shared, callers := w.callers[c := caller],
         workers := if entry.Wait? && entry.starts then w.workers + {entry.channel} else w.workers)
    case Wake(c) => w.(callers := w.callers[c := Woken(w.callers[c].channel)])
    case Cancel(c) => w.(callers := w.callers[c := Returned(ByCancel(w.callers[c].channel), Some(Cancelled))])
    case Return(c) => w.(callers := w.callers[c := Returned(ByReturn(w.callers[c].channel), Answer(w.shared))])
    case Finish(ch, looks, err) =>
      w.(shared := Ending(w.shared, ch, err), workers := w.workers - {ch}, ended := w.ended + [Ended(ch, looks, err)])
  }

  ghost predicate Run(worlds: seq<World>) {
    && worlds != [] && worlds[0] == Begin()
    && forall i :: 0 <= i < |worlds| - 1 ==> Steps(worlds[i], worlds[i + 1])
  }

  ghost predicate Steps(w: World, v: World) {
    exists step :: Enabled(w, step) && v == After(w, step)
  }

  // ---------------------------------------------------------------- what every run keeps

  /** Workers take turns: worker `k` is the one of channel `k`; all but possibly the last have ended, each
      closing its own channel once, and only a worker that is still running leaves a channel open. */
  ghost predicate TakesTurns(w: World) {
    && (forall k :: 0 <= k < |w.ended| ==> w.ended[k].channel == k && EndsAs(w.ended[k].looks, w.ended[k].err))
    && (forall ch: Channel :: w.shared.closed[ch] == if ch < |w.ended| then 1 else 0)
    && match w.shared.wait
       case None => w.workers == {} && w.shared.made == |w.ended|
       case Some(ch) => w.workers == {ch} && ch == |w.ended| && w.shared.made == ch + 1
  }

  /** The error field is the ending of the last worker, and success is final. */
  ghost predicate Records(w: World) {
    && (w.shared.bootstrapped <==> exists k: nat :: k < |w.ended| && w.ended[k].err.None?)
    && (w.shared.bootstrapped ==> w.shared.wait.None?)
    && w.shared.err == if |w.ended| == 0 then None else w.ended[|w.ended| - 1].err
  }

  /** No caller waits on a channel that nobody will close, and every answer is a worker's. */
  ghost predicate Served(w: World, caller: Caller) {
    match caller
    case Waiting(ch) => ch in w.workers || w.shared.closed[ch] == 1
    case Woken(ch) => w.shared.closed[ch] == 1
    case Returned(left, failure) => Justified(w, left, failure)
  }

  /** A caller that gave up was cancelled, and no other. One that did not wait found the flag set. One that
      waited succeeds if the flag was set, and otherwise has the error of a worker no older than its own, up to
      which none had succeeded. */
  ghost predicate Justified(w: World, left: Leaving, failure: Option<Failure>) {
    match left
    case AtOnce => failure.None? && w.shared.bootstrapped
    case ByCancel(_) => failure == Some(Cancelled)
    case ByReturn(ch) =>
      && w.shared.closed[ch] == 1
      && if failure.None? then w.shared.bootstrapped
         else failure.value.Failed? && exists k: nat :: ch <= k && FailsAt(w, k, failure.value.error)
  }

  /** Worker `k` ended with this error, and none had succeeded by then. */
  ghost predicate FailsAt(w: World, k: nat, e: BootError) {
    k < |w.ended| && w.ended[k].err == Some(e) && forall j :: 0 <= j <= k ==> w.ended[j].err.Some?
  }

  ghost predicate Good(w: World) {
    TakesTurns(w) && Records(w) && AllServed(w)
  }

  ghost predicate AllServed(w: World) {
    forall c :: c in w.callers ==> Served(w, w.callers[c])
  }

  lemma SharedStepKeeps(w: World, step: Step)
    requires TakesTurns(w) && Records(w) && Enabled(w, step)
    ensures TakesTurns(After(w, step)) && Records(After(w, step))
  {
    if step.Finish? {
      FinishKeeps(w, step.channel, step.looks, step.err);
    }
  }

  lemma FinishKeeps(w: World, ch: Channel, looks: seq<Look>, err: Option<BootError>)
    requires TakesTurns(w) && Records(w) && ch in w.workers && EndsAs(looks, err)
    ensures var v := After(w, Finish(ch, looks, err)); TakesTurns(v) && Records(v)
  {
    var v := After(w, Finish(ch, looks, err));
    var n := |w.ended|;
    assert v.ended[..n] == w.ended && v.ended[n].err == err;
    assert !w.shared.bootstrapped;
    if err.None? {
      assert v.ended[n].err.None?;
    } else {
      assert forall k: nat :: k < n ==> v.ended[k] == w.ended[k];
    }
  }

  /** What a later world never takes back. */
  ghost predicate Extends(v: World, w: World) {
    && w.ended <= v.ended && (w.shared.bootstrapped ==> v.shared.bootstrapped)
    && (forall ch: Channel :: w.shared.closed[ch] <= v.shared.closed[ch])
    && forall c :: c in w.callers ==> c in v.callers && (w.callers[c].Returned? ==> v.callers[c] == w.callers[c])
  }

  lemma StepExtends(w: World, step: Step)
    requires Enabled(w, step)
    ensures Extends(After(w, step), w)
  {
  }

  lemma ServedLater(w: World, v: World, caller: Caller)
    requires Served(w, caller) && Extends(v, w) && TakesTurns(v)
    requires caller.Waiting? && caller.channel in w.workers ==>
               caller.channel in v.workers || v.shared.closed[caller.channel] > 0
    ensures Served(v, caller)
  {
    if caller.Returned? {
      JustifiedLater(w, v, caller.left, caller.failure);
    }
  }

  lemma JustifiedLater(w: World, v: World, left: Leaving, failure: Option<Failure>)
    requires Justified(w, left, failure) && Extends(v, w) && TakesTurns(v)
    ensures Justified(v, left, failure)
  {
    if left.ByReturn? && failure.Some? {
      var e := failure.value.error;
      var k: nat :| left.asked <= k && FailsAt(w, k, e);
      assert FailsAt(v, k, e);
    }
  }

  lemma StepServes(w: World, step: Step)
    requires Good(w) && Enabled(w, step) && TakesTurns(After(w, step))
    ensures AllServed(After(w, step))
  {
    var v := After(w, step);
    StepExtends(w, step);
    forall c | c in v.callers ensures Served(v, v.callers[c]) {
      if c in w.callers {
        assert Served(w, w.callers[c]);
      }
      if c in w.callers && v.callers[c] == w.callers[c] {
        ServedLater(w, v, w.callers[c]);
      } else if step.Return? {
        AnswerIsJustified(w, w.callers[c].channel);
        JustifiedLater(w, v, v.callers[c].left, v.callers[c].failure);
      }
    }
  }

  /** A woken caller never finds both the flag and the error unset. */
  lemma AnswerIsJustified(w: World, ch: Channel)
    requires TakesTurns(w) && Records(w) && w.shared.closed[ch] == 1
    ensures Justified(w, ByReturn(ch), Answer(w.shared))
  {
    if !w.shared.bootstrapped {
      var k := |w.ended| - 1;
      assert forall j: nat :: j < |w.ended| ==> w.ended[j].err.Some?;
      assert FailsAt(w, k, w.ended[k].err.value);
    }
  }

  lemma BeginIsGood()
    ensures Good(Begin())
  {
  }

  lemma {:induction false} EveryWorldIsGood(worlds: seq<World>, n: nat)
    requires Run(worlds) && n < |worlds|
    ensures Good(worlds[n])
  {
    if n == 0 {
      BeginIsGood();
    } else {
      EveryWorldIsGood(worlds, n - 1);
      assert Steps(worlds[n - 1], worlds[n - 1 + 1]);
      var step :| Enabled(worlds[n - 1], step) && worlds[n] == After(worlds[n - 1], step);
      SharedStepKeeps(worlds[n - 1], step);
      StepServes(worlds[n - 1], step);
    }
  }

  // ---------------------------------------------------------------- main results

  /** At most one worker is alive; a made channel has a live worker or was closed exactly once. */
  lemma OneWorkerAndOneClose(worlds: seq<World>, n: nat, ch: Channel)
    requires Run(worlds) && n < |worlds|
    ensures |worlds[n].workers| <= 1
    ensures worlds[n].shared.closed[ch] == if ch < worlds[n].shared.made && ch !in worlds[n].workers then 1 else 0
  {
    EveryWorldIsGood(worlds, n);
  }

  /** A waiting caller can wake or has a live worker that will close its channel. */
  lemma NoWaiterIsStranded(worlds: seq<World>, n: nat, c: CallerId)
    requires Run(worlds) && n < |worlds| && c in worlds[n].callers && worlds[n].callers[c].Waiting?
    ensures Enabled(worlds[n], Wake(c)) <==> worlds[n].callers[c].channel !in worlds[n].workers
  {
    EveryWorldIsGood(worlds, n);
    assert Served(worlds[n], worlds[n].callers[c]);
  }

  /** No caller is ever told that the bootstrap did not finish, and an answer, once given, stands for
      what some worker that ended no earlier than the caller's own reported. */
  lemma AnswersAreJustified(worlds: seq<World>, n: nat, c: CallerId)
    requires Run(worlds) && n < |worlds| && c in worlds[n].callers && worlds[n].callers[c].Returned?
    ensures worlds[n].callers[c].failure != Some(DidNotFinish)
    ensures Justified(worlds[n], worlds[n].callers[c].left, worlds[n].callers[c].failure)
  {
    EveryWorldIsGood(worlds, n);
    assert Served(worlds[n], worlds[n].callers[c]);
  }

  /** A caller that waited for a worker which succeeded, or which any success came before, is told so; and only
      a caller that gave up is told that it was cancelled. */
  lemma SuccessReachesTheWaiter(worlds: seq<World>, n: nat, c: CallerId)
    requires Run(worlds) && n < |worlds| && c in worlds[n].callers && worlds[n].callers[c].Returned?
    ensures var left, failure := worlds[n].callers[c].left, worlds[n].callers[c].failure;
            && (left.AtOnce? ==> failure.None?)
            && (left.ByCancel? <==> failure == Some(Cancelled))
            && (left.ByReturn? ==> left.asked < |worlds[n].ended|)
            && (left.ByReturn? && (exists j :: 0 <= j <= left.asked && worlds[n].ended[j].err.None?) ==> failure.None?)
  {
    AnswersAreJustified(worlds, n, c);
    EveryWorldIsGood(worlds, n);
  }

  /** What a caller is told is decided when it leaves: at once with the flag set; by giving up; or after its
      channel was closed, with success exactly if the flag is set, and else with the last worker's error. */
  lemma LeavesWith(worlds: seq<World>, i: nat, c: CallerId)
    requires Run(worlds) && i + 1 < |worlds| && c in worlds[i + 1].callers && worlds[i + 1].callers[c].Returned?
    requires c in worlds[i].callers ==> !worlds[i].callers[c].Returned?
    ensures var now, failure := worlds[i].shared, worlds[i + 1].callers[c].failure;
            if c !in worlds[i].callers then now.bootstrapped && failure.None?
            else if worlds[i].callers[c].Waiting? then failure == Some(Cancelled)
            else if now.bootstrapped then failure.None?
            else
              var n := |worlds[i].ended|;
              && n > 0 && worlds[i].ended[n - 1].err.Some?
              && failure == Some(Failed(worlds[i].ended[n - 1].err.value))
  {
    EveryWorldIsGood(worlds, i);
    assert Steps(worlds[i], worlds[i + 1]);
    if c in worlds[i].callers {
      assert Served(worlds[i], worlds[i].callers[c]);
    }
  }

  lemma NextExtends(w: World, v: World)
    requires Steps(w, v)
    ensures Extends(v, w)
  {
    var step :| Enabled(w, step) && v == After(w, step);
    StepExtends(w, step);
  }

  lemma {:induction false} ExtendsAlong(worlds: seq<World>, i: nat, j: nat)
    requires i <= j < |worlds| && forall k :: i <= k < j ==> Extends(worlds[k + 1], worlds[k])
    ensures Extends(worlds[j], worlds[i])
  {
    if i < j {
      ExtendsAlong(worlds, i, j - 1);
      assert Extends(worlds[j - 1 + 1], worlds[j - 1]);
      ExtendsIsTransitive(worlds[i], worlds[j - 1], worlds[j]);
    }
  }

  lemma RunExtends(worlds: seq<World>, i: nat, j: nat)
    requires Run(worlds) && i <= j < |worlds|
    ensures Extends(worlds[j], worlds[i])
  {
    forall k | i <= k < j ensures Extends(worlds[k + 1], worlds[k]) {
      NextExtends(worlds[k], worlds[k + 1]);
    }
    ExtendsAlong(worlds, i, j);
  }

  lemma ExtendsIsTransitive(u: World, v: World, w: World)
    requires Extends(v, u) && Extends(w, v)
    ensures Extends(w, u)
  {
  }

  /** The flag is set exactly when some ended worker dialled a peer or slipped through the first pass,
      and it stays set. */
  lemma BootstrappedIsEarnedAndFinal(worlds: seq<World>, i: nat, j: nat)
    requires Run(worlds) && i <= j < |worlds|
    ensures worlds[i].shared.bootstrapped <==>
            exists e :: e in worlds[i].ended && Possible(e.looks) && Succeeds(e.looks)
    ensures worlds[i].shared.bootstrapped ==> worlds[j].shared.bootstrapped
  {
    EveryWorldIsGood(worlds, i);
    RunExtends(worlds, i, j);
  }
}
