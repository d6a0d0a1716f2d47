/** The OAuth callback of internal/server/server.go as the concurrent client of the binding store: any number
    of callbacks, each Save one operation at a time, and a server that may stop, lose power and be started again
    after any step.  A step that is not enabled leaves the state as it is. */
module OAuthCallback {
  import opened Basics
  import opened BindingStore

  /** Whether the server was given a binding store and an OAuth manager, and the store's path a directory. */
  datatype Config = Config(hasStore: bool, hasManager: bool, hasDir: bool)

  datatype Request = Request(httpMethod: string, cookie: Option<string>, state: string, oauthError: string,
                             code: string)

  datatype Answer =
    | MethodNotAllowed
    | Conflict
    | BadRequest
    | Declined(oauthError: string)
    | Unconfigured
    | ExchangeFailed
    | SaveFailed
    | Linked(binding: Binding)

  /** A callback past its checks: waiting for the exchange, for the store's lock, inside Save, or with Save's result. */
  datatype Stage =
    | Exchanging
    | ToSave(binding: Binding)
    | Saving
    | SaveReturned(binding: Binding, err: Option<SaveError>)

  /** The callback that holds the lock; `base`, the disk when it took it, is history. */
  datatype Holder = Holder(id: nat, saver: Saver, base: Disk)

  datatype Server = Server(up: bool, memory: Option<Binding>, callbacks: map<nat, Stage>, holder: Option<Holder>)

  /** `answers` holds every answer ever given; `losses` counts the losses of power that undid a rename. */
  datatype State = State(server: Server, disk: Disk, answers: map<nat, Answer>, losses: nat)

  datatype Step =
    | Arrives(k: nat, req: Request)
    | Exchanged(k: nat, binding: Option<Binding>)
    | Locks(k: nat)
    | Operates(ok: bool, written: nat)
    | Replies(k: nat)
    | DirectoryReachesDisk
    | ProcessStops
    | PowerFails(torn: seq<byte>)
    | Opens(readable: bool)

  const DOWN := Server(false, None, map[], None)

  function Init(): State {
    State(DOWN, Disk(None, None, map[], 0), map[], 0)
  }

  /** The checks after the one for a binding; None lets the callback go on to the exchange. */
  function Screen(cfg: Config, req: Request): (a: Option<Answer>)
    ensures a.Some? ==> !a.value.Linked? && !a.value.Conflict? && !a.value.SaveFailed?
  {
    if req.cookie.None? || TrimSpace(req.cookie.value) == "" then Some(BadRequest)
    else if req.state == "" || req.state != req.cookie.value then Some(BadRequest)
    else if req.oauthError != "" then Some(Declined(req.oauthError))
    else if TrimSpace(req.code) == "" then Some(BadRequest)
    else if !cfg.hasManager then Some(Unconfigured)
    else None
  }

  function Answered(s: State, k: nat, a: Answer): State {
    s.(answers := s.answers[k := a], server := s.server.(callbacks := s.server.callbacks - {k}))
  }

  function AtStage(s: State, k: nat, stage: Stage): State {
    s.(server := s.server.(callbacks := s.server.callbacks[k := stage]))
  }

  /** IsBound needs the read lock, which a Save keeps out. */
  function Arrive(cfg: Config, s: State, k: nat, req: Request): State {
    if !s.server.up || k in s.server.callbacks || k in s.answers then s
    else if req.httpMethod != "GET" && req.httpMethod != "HEAD" then Answered(s, k, MethodNotAllowed)
    else if cfg.hasStore && s.server.holder.Some? then s
    else if cfg.hasStore && s.server.memory.Some? then Answered(s, k, Conflict)
    else match Screen(cfg, req) case Some(a) => Answered(s, k, a) case None => AtStage(s, k, Exchanging)
  }

  function Exchange(cfg: Config, s: State, k: nat, binding: Option<Binding>): State {
    if k !in s.server.callbacks || !s.server.callbacks[k].Exchanging? then s
    else match binding
      case None => Answered(s, k, ExchangeFailed)
      case Some(b) => AtStage(s, k, if cfg.hasStore then ToSave(b) else SaveReturned(b, None))
  }

  function Lock(s: State, k: nat): State {
    if k !in s.server.callbacks || !s.server.callbacks[k].ToSave? || s.server.holder.Some? then s
    else
      var b := s.server.callbacks[k].binding;
      if s.server.memory.Some? then AtStage(s, k, SaveReturned(b, Some(ErrAlreadyBound)))
      else
        var t := AtStage(s, k, Saving);
        t.(server := t.server.(holder := Some(Holder(k, Saver(b, Marshalling, [], 0), s.disk))))
  }

  function Operate(c: Codec, cfg: Config, s: State, ok: bool, written: nat): State {
    if s.server.holder.None? then s
    else
      var h := s.server.holder.value;
      var (disk, progress) := Advance(c, cfg.hasDir, s.disk, h.saver, ok, written);
      match progress
      case Going(saver) => s.(disk := disk, server := s.server.(holder := Some(h.(saver := saver))))
      case Returned(err) =>
        var t := AtStage(s.(disk := disk), h.id, SaveReturned(h.saver.binding, err));
        t.(server := t.server.(holder := None, memory := if err.None? then Some(h.saver.binding) else t.server.memory))
  }

  function Reply(s: State, k: nat): State {
    if k !in s.server.callbacks then s
    else match s.server.callbacks[k]
      case SaveReturned(b, err) =>
        Answered(s, k, if err.None? then Linked(b) else if err == Some(ErrAlreadyBound) then Conflict else SaveFailed)
      case _ => s
  }

  function Torn(f: File, torn: seq<byte>): File {
    if f.synced then f else File(torn, false)
  }

  /** What was never synced may hold anything afterwards, and a rename the directory has not recorded is undone. */
  function AfterPowerLoss(d: Disk, torn: seq<byte>): Disk {
    var left := if d.durable.None? then None else Some(Torn(d.durable.value, torn));
    Disk(left, left, map t | t in d.temps :: Torn(d.temps[t], torn), d.nextTemp)
  }

  function Open(c: Codec, cfg: Config, s: State, readable: bool): State {
    if s.server.up then s
    else if !cfg.hasStore then s.(server := DOWN.(up := true))
    else if !readable || Reopened(c, s.disk).None? then s
    else s.(server := DOWN.(up := true, memory := Reopened(c, s.disk).value))
  }

  function Do(c: Codec, cfg: Config, s: State, step: Step): State {
    match step
    case Arrives(k, req) => Arrive(cfg, s, k, req)
    case Exchanged(k, binding) => Exchange(cfg, s, k, binding)
    case Locks(k) => Lock(s, k)
    case Operates(ok, written) => Operate(c, cfg, s, ok, written)
    case Replies(k) => Reply(s, k)
    case DirectoryReachesDisk => s.(disk := s.disk.(durable := s.disk.target))
    case ProcessStops => s.(server := DOWN)
    case PowerFails(torn) =>
      s.(server := DOWN, disk := AfterPowerLoss(s.disk, torn),
         losses := s.losses + if s.disk.target != s.disk.durable then 1 else 0)
    case Opens(readable) => Open(c, cfg, s, readable)
  }

  function Run(c: Codec, cfg: Config, s: State, steps: seq<Step>): State {
    if steps == [] then s else Do(c, cfg, Run(c, cfg, s, steps[..|steps| - 1]), steps[|steps| - 1])
  }

  /** What a request must bring to be linked, in its own fields: a method that reads, a cookie that is not blank, that
      cookie again as its state, no error from the provider, and a code that is not blank. */
  ghost predicate Genuine(req: Request) {
    && req.httpMethod in {"GET", "HEAD"}
    && (exists c :: req.cookie == Some(c) && !AllSpace(c) && req.state == c)
    && req.oauthError == ""
    && !AllSpace(req.code)
  }

  /** Every other request that is looked at, with the answer it gets. */
  ghost predicate RefusedWith(cfg: Config, req: Request, a: Answer) {
    if req.httpMethod !in {"GET", "HEAD"} then a == MethodNotAllowed
    else if req.cookie.None? || AllSpace(req.cookie.value) || req.state != req.cookie.value then a == BadRequest
    else if req.oauthError != "" then a == Declined(req.oauthError)
    else if AllSpace(req.code) then a == BadRequest
    else !cfg.hasManager && a == Unconfigured
  }

  /** The checks in the request's fields. */
  lemma ScreenMeans(cfg: Config, req: Request)
    requires req.httpMethod in {"GET", "HEAD"}
    ensures Screen(cfg, req).None? <==> Genuine(req) && cfg.hasManager
    ensures Screen(cfg, req).Some? ==> RefusedWith(cfg, req, Screen(cfg, req).value)
  {
    hide TrimSpace, AllSpace;
    if req.cookie.Some? {
      BlankIsAllSpace(req.cookie.value);
      if req.cookie.value == "" {
        EmptyIsBlank();
      }
    }
    BlankIsAllSpace(req.code);
  }

  lemma EmptyIsBlank()
    ensures AllSpace("")
  {
  }

  /** The handler run without interference: which requests link, what they store, and when the state cookie is
      cleared.  `store` is null in a server without one. */
  method HandleCallback(cfg: Config, store: Store?, req: Request, exchanged: Option<Binding>, fate: Fate)
    returns (answer: Answer, cleared: bool)
    requires cfg.hasStore <==> store != null
    requires store != null ==> store.Valid()
    modifies store
    ensures store != null ==> store.Valid()
    ensures answer.Linked? <==>
              && Genuine(req) && cfg.hasManager && exchanged.Some?
              && (store != null ==> old(store.binding).None? && store.codec.marshal(exchanged.value).Some?
                                    && !Strikes(store.hasDir, fate, Marshalling))
    ensures RefusedWith(cfg, req, answer) <==>
              && !(Genuine(req) && cfg.hasManager)
              && (req.httpMethod in {"GET", "HEAD"} ==> store == null || old(store.binding).None?)
    ensures answer.ExchangeFailed? <==>
              && Genuine(req) && cfg.hasManager && (store == null || old(store.binding).None?) && exchanged.None?
    ensures answer.Linked? ==> answer.binding == exchanged.value && (store != null ==> store.binding == exchanged)
    ensures !answer.Linked? && store != null ==> store.binding == old(store.binding)
    ensures answer.Conflict? <==>
              && (req.httpMethod == "GET" || req.httpMethod == "HEAD") && store != null && old(store.binding).Some?
    ensures cleared <==>
              answer.Linked? || answer.SaveFailed? || answer.ExchangeFailed? || answer.Unconfigured? || answer.Declined?
  {
    hide TrimSpace, AllSpace, Strikes;
    if req.httpMethod == "GET" || req.httpMethod == "HEAD" {
      ScreenMeans(cfg, req);
    }
    if req.httpMethod != "GET" && req.httpMethod != "HEAD" {
      return MethodNotAllowed, false;
    }
    if store != null {
      var bound := store.IsBound();
      if bound {
        return Conflict, false;
      }
    }
    if req.cookie.None? || TrimSpace(req.cookie.value) == "" {
      return BadRequest, false;
    }
    if req.state == "" || req.state != req.cookie.value {
      return BadRequest, false;
    }
    if req.oauthError != "" {
      return Declined(req.oauthError), true;
    }
    if TrimSpace(req.code) == "" {
      return BadRequest, false;
    }
    if !cfg.hasManager {
      return Unconfigured, true;
    }
    if exchanged.None? {
      return ExchangeFailed, true;
    }
    if store != null {
      var err := store.Save(exchanged, fate);
      if err.Some? {
        if err == Some(ErrAlreadyBound) {
          return Conflict, true;
        }
        return SaveFailed, true;
      }
    }
    return Linked(exchanged.value), true;
  }

  // ---- The invariant ----

  /** The file holds the whole encoding of some binding, and it was synced. */
  ghost predicate Whole(c: Codec, f: File) {
    f.synced && c.unmarshal(f.data).Some? && c.marshal(c.unmarshal(f.data).value) == Some(f.data)
  }

  ghost predicate DiskInv(c: Codec, d: Disk) {
    && FreshNames(d)
    && (d.target.Some? ==> Whole(c, d.target.value))
    && (d.durable.Some? ==> d.durable == d.target)
  }

  /** The binding the disk holds. */
  function Bound(c: Codec, d: Disk): Option<Binding> {
    if d.target.None? then None else c.unmarshal(d.target.value.data)
  }

  ghost predicate ServerInv(c: Codec, cfg: Config, s: Server, d: Disk) {
    && (!s.up ==> s == DOWN)
    && (!cfg.hasStore ==> s.memory.None? && forall k :: k in s.callbacks ==> !s.callbacks[k].ToSave?)
    && (s.holder.None? && s.up && cfg.hasStore ==> s.memory == Bound(c, d))
    && (s.holder.Some? ==>
          var h := s.holder.value;
          && cfg.hasStore && s.memory.None? && h.id in s.callbacks && s.callbacks[h.id].Saving?
          && h.base.target.None? && InFlight(c, h.base, d, h.saver))
  }

  /** The binding with which callback k has linked, or is about to say so. */
  function Win(callbacks: map<nat, Stage>, answers: map<nat, Answer>, k: nat): Option<Binding> {
    if k in answers then (if answers[k].Linked? then Some(answers[k].binding) else None)
    else if k in callbacks && callbacks[k].SaveReturned? && callbacks[k].err.None? then Some(callbacks[k].binding)
    else None
  }

  ghost predicate WinnersInv(c: Codec, callbacks: map<nat, Stage>, answers: map<nat, Answer>, d: Disk, locked: bool) {
    && (forall k :: Win(callbacks, answers, k).Some? ==> !locked && Win(callbacks, answers, k) == Bound(c, d))
    && (forall j, k :: Win(callbacks, answers, j).Some? && Win(callbacks, answers, k).Some? ==> j == k)
  }

  ghost predicate Winners(c: Codec, s: State) {
    WinnersInv(c, s.server.callbacks, s.answers, s.disk, s.server.holder.Some?)
  }

  ghost predicate Inv(c: Codec, cfg: Config, s: State) {
    && DiskInv(c, s.disk)
    && ServerInv(c, cfg, s.server, s.disk)
    && (forall k :: k in s.server.callbacks ==> k !in s.answers)
    && (cfg.hasStore && s.losses == 0 ==> Winners(c, s))
  }

  lemma InitInv(c: Codec, cfg: Config)
    ensures Inv(c, cfg, Init())
  {
  }

  ghost predicate NoNewWinner(s: State, t: State) {
    forall k :: Win(t.server.callbacks, t.answers, k).Some? ==>
      Win(t.server.callbacks, t.answers, k) == Win(s.server.callbacks, s.answers, k)
  }

  lemma WinnersKept(c: Codec, s: State, t: State)
    requires Winners(c, s) && NoNewWinner(s, t)
    requires s.server.holder.None? ==> Bound(c, t.disk) == Bound(c, s.disk)
    requires s.server.holder.None? && t.server.holder.Some? ==> Bound(c, s.disk).None?
    ensures Winners(c, t)
  {
    forall k | Win(t.server.callbacks, t.answers, k).Some?
      ensures t.server.holder.None? && Win(t.server.callbacks, t.answers, k) == Bound(c, t.disk)
    {
      assert Win(s.server.callbacks, s.answers, k).Some?;
    }
    forall j, k | Win(t.server.callbacks, t.answers, j).Some? && Win(t.server.callbacks, t.answers, k).Some?
      ensures j == k
    {
      assert Win(s.server.callbacks, s.answers, j).Some? && Win(s.server.callbacks, s.answers, k).Some?;
    }
  }

  /** With a Save in progress nobody has won, so the first to return nil is the only one. */
  lemma FirstWinner(c: Codec, s: State, t: State, id: nat)
    requires Winners(c, s) && s.server.holder.Some? && t.server.holder.None?
    requires forall k :: k != id ==> Win(t.server.callbacks, t.answers, k) == Win(s.server.callbacks, s.answers, k)
    requires Win(t.server.callbacks, t.answers, id).Some? ==> Win(t.server.callbacks, t.answers, id) == Bound(c, t.disk)
    ensures Winners(c, t)
  {
    forall k | k != id ensures Win(t.server.callbacks, t.answers, k).None? {
      assert Win(t.server.callbacks, t.answers, k) == Win(s.server.callbacks, s.answers, k);
    }
  }

  lemma ArriveKeepsInv(c: Codec, cfg: Config, s: State, k: nat, req: Request)
    requires Inv(c, cfg, s)
    ensures Inv(c, cfg, Arrive(cfg, s, k, req))
  {
    hide Screen, Whole, InFlight, Winners;
    if cfg.hasStore && s.losses == 0 {
      WinnersKept(c, s, Arrive(cfg, s, k, req));
    }
  }

  lemma ExchangeKeepsInv(c: Codec, cfg: Config, s: State, k: nat, binding: Option<Binding>)
    requires Inv(c, cfg, s)
    ensures Inv(c, cfg, Exchange(cfg, s, k, binding))
  {
    hide Whole, InFlight, Winners;
    if cfg.hasStore && s.losses == 0 {
      WinnersKept(c, s, Exchange(cfg, s, k, binding));
    }
  }

  lemma LockKeepsInv(c: Codec, cfg: Config, s: State, k: nat)
    requires Inv(c, cfg, s)
    ensures Inv(c, cfg, Lock(s, k))
  {
    hide Winners;
    if cfg.hasStore && s.losses == 0 {
      WinnersKept(c, s, Lock(s, k));
    }
  }

  /** An operation of Save leaves the path empty or with a whole file, and a nil result means the binding is there. */
  lemma AdvanceKeepsDisk(c: Codec, hasDir: bool, base: Disk, d: Disk, saver: Saver, ok: bool, written: nat)
    requires c.RoundTrips() && DiskInv(c, d) && InFlight(c, base, d, saver) && base.target.None?
    ensures var (after, progress) := Advance(c, hasDir, d, saver, ok, written);
            && DiskInv(c, after)
            && (progress.Returned? ==> Bound(c, after) == if progress.err.None? then Some(saver.binding) else None)
  {
    hide Advance, FreshNames;
    AdvanceStaysInFlight(c, hasDir, base, d, saver, ok, written);
    var (after, progress) := Advance(c, hasDir, d, saver, ok, written);
    if after.target.Some? {
      assert after.target == Some(File(saver.data, true)) && c.marshal(saver.binding) == Some(saver.data);
    }
  }

  lemma OperateKeepsInv(c: Codec, cfg: Config, s: State, ok: bool, written: nat)
    requires c.RoundTrips() && Inv(c, cfg, s)
    ensures Inv(c, cfg, Operate(c, cfg, s, ok, written))
  {
    hide Advance, Winners, DiskInv, InFlight, Bound, FreshNames;
    if s.server.holder.Some? {
      var h := s.server.holder.value;
      assert FreshNames(s.disk) by { DiskHasFreshNames(c, s.disk); }
      AdvanceStaysInFlight(c, cfg.hasDir, h.base, s.disk, h.saver, ok, written);
      AdvanceKeepsDisk(c, cfg.hasDir, h.base, s.disk, h.saver, ok, written);
      var t := Operate(c, cfg, s, ok, written);
      if s.losses == 0 && t.server.holder.Some? {
        WinnersKept(c, s, t);
      } else if s.losses == 0 {
        FirstWinner(c, s, t, h.id);
      }
    }
  }

  lemma DiskHasFreshNames(c: Codec, d: Disk)
    requires DiskInv(c, d)
    ensures FreshNames(d)
  {
  }

  lemma ReplyKeepsInv(c: Codec, cfg: Config, s: State, k: nat)
    requires Inv(c, cfg, s)
    ensures Inv(c, cfg, Reply(s, k))
  {
    hide Whole, InFlight, Winners;
    if cfg.hasStore && s.losses == 0 {
      WinnersKept(c, s, Reply(s, k));
    }
  }

  lemma DirectoryKeepsInv(c: Codec, cfg: Config, s: State)
    requires Inv(c, cfg, s)
    ensures Inv(c, cfg, Do(c, cfg, s, DirectoryReachesDisk))
  {
    hide Whole, Winners;
    if cfg.hasStore && s.losses == 0 {
      WinnersKept(c, s, Do(c, cfg, s, DirectoryReachesDisk));
    }
  }

  lemma StopKeepsInv(c: Codec, cfg: Config, s: State)
    requires Inv(c, cfg, s)
    ensures Inv(c, cfg, Do(c, cfg, s, ProcessStops))
  {
    hide Whole, Winners, InFlight;
    if cfg.hasStore && s.losses == 0 {
      WinnersKept(c, s, Do(c, cfg, s, ProcessStops));
    }
  }

  lemma PowerFailureKeepsInv(c: Codec, cfg: Config, s: State, torn: seq<byte>)
    requires Inv(c, cfg, s)
    ensures Inv(c, cfg, Do(c, cfg, s, PowerFails(torn)))
  {
    hide Winners, InFlight;
    if cfg.hasStore && Do(c, cfg, s, PowerFails(torn)).losses == 0 {
      WinnersKept(c, s, Do(c, cfg, s, PowerFails(torn)));
    }
  }

  lemma OpenKeepsInv(c: Codec, cfg: Config, s: State, readable: bool)
    requires Inv(c, cfg, s)
    ensures Inv(c, cfg, Open(c, cfg, s, readable))
  {
    hide Winners, InFlight;
    if cfg.hasStore && s.losses == 0 {
      WinnersKept(c, s, Open(c, cfg, s, readable));
    }
  }

  lemma StepKeepsInv(c: Codec, cfg: Config, s: State, step: Step)
    requires c.RoundTrips() && Inv(c, cfg, s)
    ensures Inv(c, cfg, Do(c, cfg, s, step))
  {
    hide Inv, Arrive, Exchange, Lock, Operate, Reply, Open, AfterPowerLoss;
    match step
    case Arrives(k, req) => ArriveKeepsInv(c, cfg, s, k, req);
    case Exchanged(k, binding) => ExchangeKeepsInv(c, cfg, s, k, binding);
    case Locks(k) => LockKeepsInv(c, cfg, s, k);
    case Operates(ok, written) => OperateKeepsInv(c, cfg, s, ok, written);
    case Replies(k) => ReplyKeepsInv(c, cfg, s, k);
    case DirectoryReachesDisk => DirectoryKeepsInv(c, cfg, s);
    case ProcessStops => StopKeepsInv(c, cfg, s);
    case PowerFails(torn) => PowerFailureKeepsInv(c, cfg, s, torn);
    case Opens(readable) => OpenKeepsInv(c, cfg, s, readable);
  }

  lemma {:induction false} RunKeepsInv(c: Codec, cfg: Config, s: State, steps: seq<Step>)
    requires c.RoundTrips() && Inv(c, cfg, s)
    ensures Inv(c, cfg, Run(c, cfg, s, steps))
  {
    hide Inv, Do;
    if steps != [] {
      RunKeepsInv(c, cfg, s, steps[..|steps| - 1]);
      StepKeepsInv(c, cfg, Run(c, cfg, s, steps[..|steps| - 1]), steps[|steps| - 1]);
    }
  }

  // ---- What every run does ----

  /** Stop the process or the power after any step: what is under the path is nothing or the whole encoding of a
      binding, so the store opens again. */
  lemma NeverTorn(c: Codec, cfg: Config, steps: seq<Step>)
    requires c.RoundTrips()
    ensures var d := Run(c, cfg, Init(), steps).disk;
            && Reopened(c, d) == Some(Bound(c, d))
            && (d.target.Some? ==> Bound(c, d).Some? && c.marshal(Bound(c, d).value) == Some(d.target.value.data))
  {
    InitInv(c, cfg);
    RunKeepsInv(c, cfg, Init(), steps);
    hide Run, Winners, ServerInv, FreshNames;
  }

  /** While a Save has not renamed, and when one returns an error, neither the path nor the store holds a binding. */
  lemma FailedSaveLeavesUnbound(c: Codec, cfg: Config, steps: seq<Step>, ok: bool, written: nat)
    requires c.RoundTrips() && Run(c, cfg, Init(), steps).server.holder.Some?
    ensures var s := Run(c, cfg, Init(), steps);
            var h := s.server.holder.value;
            var t := Operate(c, cfg, s, ok, written);
            && s.server.memory.None? && (!h.saver.phase.Caching? ==> s.disk.target.None?)
            && (t.server.holder.None? ==>
                  && h.id in t.server.callbacks && t.server.callbacks[h.id].SaveReturned?
                  && (t.server.callbacks[h.id].err.Some? ==> t.server.memory.None? && t.disk.target.None?)
                  && (t.server.callbacks[h.id].err.None? ==>
                        t.server.memory == Some(h.saver.binding) == Bound(c, t.disk)))
  {
    InitInv(c, cfg);
    RunKeepsInv(c, cfg, Init(), steps);
    hide Run, Winners, Advance, FreshNames;
    var s := Run(c, cfg, Init(), steps);
    var h := s.server.holder.value;
    assert FreshNames(s.disk) by { DiskHasFreshNames(c, s.disk); }
    AdvanceStaysInFlight(c, cfg.hasDir, h.base, s.disk, h.saver, ok, written);
    AdvanceKeepsDisk(c, cfg.hasDir, h.base, s.disk, h.saver, ok, written);
  }

  /** One step changes what the disk holds only by undoing a rename, once it holds something. */
  lemma BoundStepsStay(c: Codec, cfg: Config, s: State, step: Step)
    requires c.RoundTrips() && Inv(c, cfg, s) && Bound(c, s.disk).Some?
    ensures Do(c, cfg, s, step).losses >= s.losses
    ensures Do(c, cfg, s, step).losses == s.losses ==> Bound(c, Do(c, cfg, s, step).disk) == Bound(c, s.disk)
    ensures s.server.holder.None? ==> Do(c, cfg, s, step).server.holder.None?
  {
    hide Winners, Advance, FreshNames, Screen;
    match step
    case Operates(ok, written) =>
      if s.server.holder.Some? {
        var h := s.server.holder.value;
        assert FreshNames(s.disk) by { DiskHasFreshNames(c, s.disk); }
        AdvanceStaysInFlight(c, cfg.hasDir, h.base, s.disk, h.saver, ok, written);
      }
    case _ =>
  }

  lemma StepNeverForgivesLosses(c: Codec, cfg: Config, s: State, step: Step)
    ensures Do(c, cfg, s, step).losses >= s.losses
  {
    hide Advance, Screen;
  }

  /** Write once: from the moment the disk holds a binding, it holds that binding, and every store opened on it
      answers Get with that binding, through any callbacks, failures and restarts, unless a loss of power undoes
      the rename. */
  lemma {:induction false} BindingIsWrittenOnce(c: Codec, cfg: Config, s: State, more: seq<Step>)
    requires c.RoundTrips() && Inv(c, cfg, s) && Bound(c, s.disk).Some?
    ensures var t := Run(c, cfg, s, more);
            && t.losses >= s.losses
            && (t.losses == s.losses ==>
                  && Bound(c, t.disk) == Bound(c, s.disk)
                  && (t.server.memory.Some? ==> t.server.memory == Bound(c, s.disk))
                  && (s.server.holder.None? ==>
                        && t.server.holder.None?
                        && (t.server.up && cfg.hasStore ==> t.server.memory == Bound(c, s.disk))))
  {
    hide Do, Winners, InFlight, DiskInv, Bound;
    RunKeepsInv(c, cfg, s, more);
    if more != [] {
      var before := Run(c, cfg, s, more[..|more| - 1]);
      RunKeepsInv(c, cfg, s, more[..|more| - 1]);
      BindingIsWrittenOnce(c, cfg, s, more[..|more| - 1]);
      StepNeverForgivesLosses(c, cfg, before, more[|more| - 1]);
      if before.losses == s.losses {
        BoundStepsStay(c, cfg, before, more[|more| - 1]);
      }
    }
  }

  ghost predicate OneLinked(answers: map<nat, Answer>) {
    forall j, k :: j in answers && k in answers && answers[j].Linked? && answers[k].Linked? ==> j == k
  }

  /** Over all concurrent callbacks at most one ever answers success=linked, and its binding is the stored one. */
  lemma OneCallbackLinks(c: Codec, cfg: Config, steps: seq<Step>)
    requires c.RoundTrips() && cfg.hasStore && Run(c, cfg, Init(), steps).losses == 0
    ensures var s := Run(c, cfg, Init(), steps);
            && OneLinked(s.answers)
            && (forall k :: k in s.answers && s.answers[k].Linked? ==>
                  && Bound(c, s.disk) == Some(s.answers[k].binding)
                  && (s.server.up ==> s.server.memory == Some(s.answers[k].binding)))
  {
    InitInv(c, cfg);
    RunKeepsInv(c, cfg, Init(), steps);
    hide Run, DiskInv, InFlight;
    var s := Run(c, cfg, Init(), steps);
    forall k | k in s.answers && s.answers[k].Linked?
      ensures s.server.holder.None? && Bound(c, s.disk) == Some(s.answers[k].binding)
    {
      assert Win(s.server.callbacks, s.answers, k).Some?;
    }
    forall j, k | j in s.answers && k in s.answers && s.answers[j].Linked? && s.answers[k].Linked?
      ensures j == k
    {
      assert Win(s.server.callbacks, s.answers, j).Some? && Win(s.server.callbacks, s.answers, k).Some?;
    }
  }

  /** Somebody was told that the calendar is bound already, or is about to be. */
  predicate ToldBound(s: State, k: nat) {
    || (k in s.answers && s.answers[k].Conflict?)
    || (k in s.server.callbacks && s.server.callbacks[k].SaveReturned?
        && s.server.callbacks[k].err == Some(ErrAlreadyBound))
  }

  lemma StepTellsTruth(c: Codec, cfg: Config, s: State, step: Step, k: nat)
    requires c.RoundTrips() && Inv(c, cfg, s)
    requires ToldBound(s, k) ==> Bound(c, s.disk).Some?
    requires Do(c, cfg, s, step).losses == s.losses && ToldBound(Do(c, cfg, s, step), k)
    ensures Bound(c, Do(c, cfg, s, step).disk).Some?
  {
    if Bound(c, s.disk).Some? {
      hide Do, Inv, Bound, ToldBound;
      BoundStepsStay(c, cfg, s, step);
    } else {
      NobodyIsNewlyTold(c, cfg, s, step, k);
    }
  }

  lemma NobodyIsNewlyTold(c: Codec, cfg: Config, s: State, step: Step, k: nat)
    requires c.RoundTrips() && Inv(c, cfg, s) && Bound(c, s.disk).None? && !ToldBound(s, k)
    ensures ToldBound(Do(c, cfg, s, step), k) ==> Bound(c, Do(c, cfg, s, step).disk).Some?
  {
    hide Screen, Advance, AfterPowerLoss, Winners, Whole, Genuine;
    match step
    case Arrives(j, req) =>
      if req.httpMethod in {"GET", "HEAD"} {
        ScreenMeans(cfg, req);
      }
    case Operates(ok, written) =>
      if s.server.holder.Some? {
        var h := s.server.holder.value;
        AdvanceStaysInFlight(c, cfg.hasDir, h.base, s.disk, h.saver, ok, written);
      }
    case _ =>
  }

  /** In every run without an undone rename, a callback is told of a conflict only when the disk holds a binding. */
  lemma {:induction false} ConflictMeansBound(c: Codec, cfg: Config, steps: seq<Step>, k: nat)
    requires c.RoundTrips()
    ensures var s := Run(c, cfg, Init(), steps);
            s.losses == 0 && ToldBound(s, k) ==> Bound(c, s.disk).Some?
  {
    hide Do, Inv, Bound, ToldBound;
    if steps != [] {
      var before := Run(c, cfg, Init(), steps[..|steps| - 1]);
      ConflictMeansBound(c, cfg, steps[..|steps| - 1], k);
      InitInv(c, cfg);
      RunKeepsInv(c, cfg, Init(), steps[..|steps| - 1]);
      StepNeverForgivesLosses(c, cfg, before, steps[|steps| - 1]);
      if Run(c, cfg, Init(), steps).losses == 0 && ToldBound(Run(c, cfg, Init(), steps), k) {
        StepTellsTruth(c, cfg, before, steps[|steps| - 1], k);
      }
    } else {
      NobodyToldAtFirst(k);
    }
  }

  lemma NobodyToldAtFirst(k: nat)
    ensures !ToldBound(Init(), k)
  {
  }

  /** Callback k has arrived with a genuine request at a server with a manager. */
  ghost predicate CameGenuine(cfg: Config, steps: seq<Step>, k: nat) {
    cfg.hasManager && exists i :: 0 <= i < |steps| && steps[i].Arrives? && steps[i].k == k && Genuine(steps[i].req)
  }

  /** It is past its checks, or has linked. */
  predicate Admitted(s: State, k: nat) {
    k in s.server.callbacks || (k in s.answers && s.answers[k].Linked?)
  }

  lemma StepAdmits(c: Codec, cfg: Config, s: State, step: Step, k: nat)
    requires Admitted(Do(c, cfg, s, step), k) && !Admitted(s, k)
    requires forall j :: s.server.holder.Some? && j == s.server.holder.value.id ==> Admitted(s, j)
    ensures step.Arrives? && step.k == k && Genuine(step.req) && cfg.hasManager
  {
    hide Screen, Genuine, Advance, AfterPowerLoss, Reopened;
    match step
    case Arrives(j, req) =>
      if req.httpMethod in {"GET", "HEAD"} {
        ScreenMeans(cfg, req);
      }
    case _ =>
  }

  lemma MoreSteps(cfg: Config, steps: seq<Step>, k: nat)
    requires steps != []
    ensures CameGenuine(cfg, steps[..|steps| - 1], k) ==> CameGenuine(cfg, steps, k)
    ensures var last := steps[|steps| - 1];
            cfg.hasManager && last.Arrives? && last.k == k && Genuine(last.req) ==> CameGenuine(cfg, steps, k)
  {
    hide Genuine;
    if CameGenuine(cfg, steps[..|steps| - 1], k) {
      var i :| 0 <= i < |steps| - 1 && steps[..|steps| - 1][i].Arrives? && steps[..|steps| - 1][i].k == k
               && Genuine(steps[..|steps| - 1][i].req);
      assert steps[i] == steps[..|steps| - 1][i];
    }
  }

  /** In every run a callback gets to the exchange, and hence to an answer success=linked, only if it arrived with a
      genuine request at a server with a manager. */
  lemma {:induction false} OnlyGenuineRequestsLink(c: Codec, cfg: Config, steps: seq<Step>, k: nat)
    requires c.RoundTrips()
    ensures Admitted(Run(c, cfg, Init(), steps), k) ==> CameGenuine(cfg, steps, k)
  {
    if steps != [] {
      hide Do, CameGenuine, Genuine, Winners, DiskInv, InFlight;
      var before := Run(c, cfg, Init(), steps[..|steps| - 1]);
      OnlyGenuineRequestsLink(c, cfg, steps[..|steps| - 1], k);
      InitInv(c, cfg);
      RunKeepsInv(c, cfg, Init(), steps[..|steps| - 1]);
      MoreSteps(cfg, steps, k);
      if Admitted(Run(c, cfg, Init(), steps), k) && !Admitted(before, k) {
        StepAdmits(c, cfg, before, steps[|steps| - 1], k);
      }
    }
  }

  /** What becomes of a request that is new to an open server nobody is saving at: a conflict exactly when the server
      is bound, the exchange exactly when it is genuine and the server unbound and with a manager, and otherwise the
      refusal its fields earn. */
  lemma ArrivalMeans(cfg: Config, s: State, k: nat, req: Request)
    requires s.server.up && k !in s.server.callbacks && k !in s.answers && s.server.holder.None?
    ensures var t := Arrive(cfg, s, k, req);
            var read := req.httpMethod in {"GET", "HEAD"};
            var bound := cfg.hasStore && s.server.memory.Some?;
            && (k in t.server.callbacks <==> Genuine(req) && cfg.hasManager && !bound)
            && (k in t.answers <==> k !in t.server.callbacks)
            && (k in t.answers ==>
                  && (t.answers[k] == Conflict <==> read && bound)
                  && (!(read && bound) ==> RefusedWith(cfg, req, t.answers[k])))
  {
    hide Screen, Genuine;
    if req.httpMethod in {"GET", "HEAD"} {
      ScreenMeans(cfg, req);
    } else {
      NotGenuine(req);
    }
  }

  lemma NotGenuine(req: Request)
    requires req.httpMethod !in {"GET", "HEAD"}
    ensures !Genuine(req)
  {
  }

  // ---- When these laws hold ----

  lemma Then(c: Codec, cfg: Config, s: State, steps: seq<Step>, step: Step)
    ensures Run(c, cfg, s, steps + [step]) == Do(c, cfg, Run(c, cfg, s, steps), step)
  {
    assert (steps + [step])[..|steps|] == steps;
  }

  const GOOD := Request("GET", Some("x"), "x", "", "x")

  lemma GoodPasses(cfg: Config)
    requires cfg.hasManager
    ensures Screen(cfg, GOOD).None?
  {
    assert TrimLeft("x") == "x" && TrimRight("x") == "x";
  }

  /** Without a store nothing is saved and two callbacks may link two bindings. */
  lemma TwoLinkWithoutStore(c: Codec, cfg: Config, b: Binding) returns (steps: seq<Step>)
    requires !cfg.hasStore && cfg.hasManager
    ensures Run(c, cfg, Init(), steps).losses == 0 && !OneLinked(Run(c, cfg, Init(), steps).answers)
  {
    GoodPasses(cfg);
    hide Screen, Run;
    steps := [Opens(true)];
    var s := Init();
    assert Run(c, cfg, s, []) == s && [] + [Opens(true)] == steps by { RunNothing(c, cfg, s); }
    Then(c, cfg, s, [], Opens(true));
    for i := 0 to 2
      invariant var t := Run(c, cfg, s, steps);
                t.losses == 0 && t.server == DOWN.(up := true)
                && (forall k :: k in t.answers <==> 0 <= k < i) && forall k :: k in t.answers ==> t.answers[k].Linked?
    {
      var t := Run(c, cfg, s, steps);
      Then(c, cfg, s, steps, Arrives(i, GOOD));
      Then(c, cfg, s, steps + [Arrives(i, GOOD)], Exchanged(i, Some(b)));
      Then(c, cfg, s, steps + [Arrives(i, GOOD)] + [Exchanged(i, Some(b))], Replies(i));
      var t1 := AtStage(t, i, Exchanging);
      assert Arrive(cfg, t, i, GOOD) == t1;
      var t2 := AtStage(t, i, SaveReturned(b, None));
      assert AtStage(t1, i, SaveReturned(b, None)) == t2;
      assert t2.server.callbacks - {i} == map[];
      steps := steps + [Arrives(i, GOOD)] + [Exchanged(i, Some(b))] + [Replies(i)];
    }
    assert 0 in Run(c, cfg, s, steps).answers && 1 in Run(c, cfg, s, steps).answers;
  }

  lemma RunNothing(c: Codec, cfg: Config, s: State)
    ensures Run(c, cfg, s, []) == s
  {
  }

  ghost predicate NobodyLinks(s: State) {
    && s.server.callbacks == map[] && s.server.holder.None?
    && forall k :: k in s.answers ==> !s.answers[k].Linked?
  }

  /** Without a manager no callback gets as far as the exchange. */
  lemma {:induction false} NoManagerNoLink(c: Codec, cfg: Config, steps: seq<Step>)
    requires !cfg.hasManager
    ensures NobodyLinks(Run(c, cfg, Init(), steps))
  {
    if steps != [] {
      NoManagerNoLink(c, cfg, steps[..|steps| - 1]);
      NoManagerStep(c, cfg, Run(c, cfg, Init(), steps[..|steps| - 1]), steps[|steps| - 1]);
    }
  }

  lemma NoManagerStep(c: Codec, cfg: Config, s: State, step: Step)
    requires !cfg.hasManager && NobodyLinks(s)
    ensures NobodyLinks(Do(c, cfg, s, step))
  {
    hide AfterPowerLoss, Advance;
  }

  /** Exactly when the law of one link holds: with a store, or when nobody can link at all.  Without a store the
      callback answers success=linked each time. */
  lemma OneLinkLawHoldsIff(c: Codec, cfg: Config)
    requires c.RoundTrips()
    ensures (forall steps :: Run(c, cfg, Init(), steps).losses == 0 ==> OneLinked(Run(c, cfg, Init(), steps).answers))
        <==> cfg.hasStore || !cfg.hasManager
  {
    hide Run, OneLinked;
    if !cfg.hasStore && cfg.hasManager {
      var steps := TwoLinkWithoutStore(c, cfg, Binding("", "", "", "", 0, 0));
    } else {
      forall steps | Run(c, cfg, Init(), steps).losses == 0 ensures OneLinked(Run(c, cfg, Init(), steps).answers) {
        if cfg.hasStore {
          OneCallbackLinks(c, cfg, steps);
        } else {
          NoManagerNoLink(c, cfg, steps);
          NobodyIsAtMostOne(Run(c, cfg, Init(), steps));
        }
      }
    }
  }

  lemma NobodyIsAtMostOne(s: State)
    requires NobodyLinks(s)
    ensures OneLinked(s.answers)
  {
  }

  /** A loss of power never tears the file; it forgets a binding exactly when the directory had not yet recorded
      the rename, which Save does not wait for. */
  lemma PowerFailureKeepsBindingIff(c: Codec, cfg: Config, steps: seq<Step>, torn: seq<byte>)
    requires c.RoundTrips() && Bound(c, Run(c, cfg, Init(), steps).disk).Some?
    ensures var s := Run(c, cfg, Init(), steps);
            var t := Do(c, cfg, s, PowerFails(torn));
            && (Bound(c, t.disk) == Bound(c, s.disk) <==> s.disk.durable.Some?)
            && (s.disk.durable.None? ==> t.disk.target.None? && t.losses == s.losses + 1)
  {
    InitInv(c, cfg);
    RunKeepsInv(c, cfg, Init(), steps);
    hide Run, Winners, InFlight, FreshNames;
  }

  /** An operation that works does not lead to the clean-up. */
  lemma WorkingSaveGoesOn(c: Codec, hasDir: bool, d0: Disk, d: Disk, s: Saver)
    requires InFlight(c, d0, d, s) && !s.phase.Removing? && c.marshal(s.binding).Some?
    ensures var (after, progress) := Advance(c, hasDir, d, s, true, 0);
            if s.phase.Caching? then progress == Returned(None) else progress.Going? && !progress.saver.phase.Removing?
  {
  }

  /** A Save whose operations all work ends with the lock free and nil returned, the directory still unrecorded. */
  lemma {:induction false} WorkingSaveReturns(c: Codec, cfg: Config, steps: seq<Step>) returns (more: seq<Step>)
    requires c.RoundTrips()
    requires Run(c, cfg, Init(), steps).server.holder.Some? && Run(c, cfg, Init(), steps).server.up
    requires var h := Run(c, cfg, Init(), steps).server.holder.value;
             !h.saver.phase.Removing? && c.marshal(h.saver.binding).Some?
    ensures var s, t := Run(c, cfg, Init(), steps), Run(c, cfg, Init(), more);
            var h := s.server.holder.value;
            && t.server.up && t.server.holder.None? && t.answers == s.answers && t.losses == s.losses
            && h.id in t.server.callbacks && t.server.callbacks[h.id] == SaveReturned(h.saver.binding, None)
            && t.disk.durable == s.disk.durable && t.server.memory == Some(h.saver.binding)
    decreases Rank(Run(c, cfg, Init(), steps).server.holder.value.saver.phase)
  {
    hide Run, Advance, Winners, FreshNames;
    var s := Run(c, cfg, Init(), steps);
    var h := s.server.holder.value;
    InitInv(c, cfg);
    RunKeepsInv(c, cfg, Init(), steps);
    assert FreshNames(s.disk) by { DiskHasFreshNames(c, s.disk); }
    AdvanceStaysInFlight(c, cfg.hasDir, h.base, s.disk, h.saver, true, 0);
    WorkingSaveGoesOn(c, cfg.hasDir, h.base, s.disk, h.saver);
    Then(c, cfg, Init(), steps, Operates(true, 0));
    more := steps + [Operates(true, 0)];
    if !h.saver.phase.Caching? {
      more := WorkingSaveReturns(c, cfg, more);
    }
  }

  function Locked(b: Binding): State {
    var disk := Init().disk;
    State(Server(true, None, map[0 := Saving], Some(Holder(0, Saver(b, Marshalling, [], 0), disk))), disk, map[], 0)
  }

  lemma FirstCallbackSteps(c: Codec, cfg: Config, b: Binding)
    requires cfg.hasStore && cfg.hasManager
    ensures Do(c, cfg, Do(c, cfg, Do(c, cfg, Do(c, cfg, Init(), Opens(true)), Arrives(0, GOOD)), Exchanged(0, Some(b))),
               Locks(0)) == Locked(b)
  {
    hide Screen, Advance, AfterPowerLoss, Operate, Reply;
    GoodPasses(cfg);
    var s1 := Init().(server := DOWN.(up := true));
    assert Open(c, cfg, Init(), true) == s1;
    var s2 := AtStage(s1, 0, Exchanging);
    assert Arrive(cfg, s1, 0, GOOD) == s2;
    var s3 := AtStage(s2, 0, ToSave(b));
    assert Exchange(cfg, s2, 0, Some(b)) == s3;
    assert AtStage(s3, 0, Saving).server.callbacks == map[0 := Saving];
    assert Lock(s3, 0) == Locked(b);
  }

  lemma FirstCallbackLocks(c: Codec, cfg: Config, b: Binding) returns (steps: seq<Step>)
    requires cfg.hasStore && cfg.hasManager
    ensures Run(c, cfg, Init(), steps) == Locked(b)
  {
    RunNothing(c, cfg, Init());
    FirstCallbackSteps(c, cfg, b);
    hide Run, Do, Locked;
    Then(c, cfg, Init(), [], Opens(true));
    Then(c, cfg, Init(), [] + [Opens(true)], Arrives(0, GOOD));
    steps := [] + [Opens(true)] + [Arrives(0, GOOD)];
    Then(c, cfg, Init(), steps, Exchanged(0, Some(b)));
    steps := steps + [Exchanged(0, Some(b))];
    Then(c, cfg, Init(), steps, Locks(0));
    steps := steps + [Locks(0)];
  }

  /** The loss is real: a callback answers success=linked, the power fails, and the reopened store is unbound. */
  lemma LinkedBindingCanBeForgotten(c: Codec, cfg: Config, b: Binding) returns (steps: seq<Step>)
    requires c.RoundTrips() && cfg.hasStore && cfg.hasManager && c.marshal(b).Some?
    ensures var s := Run(c, cfg, Init(), steps);
            s.server.up && s.server.memory.None? && 0 in s.answers && s.answers[0] == Linked(b) && s.losses == 1
  {
    hide Run, Winners, InFlight, Whole, FreshNames;
    steps := FirstCallbackLocks(c, cfg, b);
    steps := WorkingSaveReturns(c, cfg, steps);
    InitInv(c, cfg);
    RunKeepsInv(c, cfg, Init(), steps);
    var saved := Run(c, cfg, Init(), steps);
    assert saved.disk.target.Some? && saved.disk.durable.None?;
    Then(c, cfg, Init(), steps, Replies(0));
    Then(c, cfg, Init(), steps + [Replies(0)], PowerFails([]));
    Then(c, cfg, Init(), steps + [Replies(0)] + [PowerFails([])], Opens(true));
    ForgottenAfterReply(c, cfg, saved, b);
    steps := steps + [Replies(0)] + [PowerFails([])] + [Opens(true)];
  }

  lemma ForgottenAfterReply(c: Codec, cfg: Config, saved: State, b: Binding)
    requires cfg.hasStore && saved.disk.target.Some? && saved.disk.durable.None?
    requires 0 in saved.server.callbacks && saved.server.callbacks[0] == SaveReturned(b, None)
    ensures var t := Do(c, cfg, Do(c, cfg, Do(c, cfg, saved, Replies(0)), PowerFails([])), Opens(true));
            && t.server.up && t.server.memory.None? && t.losses == saved.losses + 1
            && 0 in t.answers && t.answers[0] == Linked(b)
  {
  }
}
