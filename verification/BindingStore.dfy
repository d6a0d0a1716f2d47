/** internal/calendar/store.go: the calendar binding, written once through a temporary file that is synced
    and renamed.  Every system call of Save may fail; what the calls do to the disk is Advance, one phase at a
    time, and Store.Save is the whole method. */
module BindingStore {
  import opened Basics

  datatype Binding = Binding(email: string, calendarID: string, accessToken: string, refreshToken: string,
                             tokenExpiryUnix: int, linkedAtUnix: int)

  /** proto.Marshal and proto.Unmarshal, of which only the round trip is known. */
  datatype Codec = Codec(marshal: Binding -> Option<seq<byte>>, unmarshal: seq<byte> -> Option<Binding>)
  {
    ghost predicate RoundTrips() {
      forall b :: marshal(b).Some? ==> unmarshal(marshal(b).value) == Some(b)
    }
  }

  datatype File = File(data: seq<byte>, synced: bool)

  /** `target` is the store's path; `durable` is what it would be after a loss of power, for the directory is
      never synced.  `temps` are the files CreateTemp made, each under an unused name. */
  datatype Disk = Disk(target: Option<File>, durable: Option<File>, temps: map<nat, File>, nextTemp: nat)

  /** What Save does next; Caching sets the field, Removing is the deferred clean-up. */
  datatype Phase =
    | Marshalling | MakingDir | Creating | Writing | Syncing | Closing | Chmoding | Renaming | Caching | Removing

  datatype SaveError = ErrNilBinding | ErrAlreadyBound | Failed

  /** A Save that holds the lock and found no binding. */
  datatype Saver = Saver(binding: Binding, phase: Phase, data: seq<byte>, temp: nat)

  datatype Progress = Going(saver: Saver) | Returned(err: Option<SaveError>)

  /** The next operation of a Save: it works if `ok`, and a Write that fails has written `written` bytes.
      `hasDir` says whether the path names a directory to make. */
  function Advance(c: Codec, hasDir: bool, d: Disk, s: Saver, ok: bool, written: nat): (Disk, Progress) {
    match s.phase
    case Marshalling =>
      var data := c.marshal(s.binding);
      if data.None? then (d, Returned(Some(Failed))) else (d, Going(s.(phase := MakingDir, data := data.value)))
    case MakingDir =>
      if hasDir && !ok then (d, Returned(Some(Failed))) else (d, Going(s.(phase := Creating)))
    case Creating =>
      if !ok then (d, Returned(Some(Failed)))
      else (d.(temps := d.temps[d.nextTemp := File([], false)], nextTemp := d.nextTemp + 1),
            Going(s.(phase := Writing, temp := d.nextTemp)))
    case Writing =>
      var n := if written <= |s.data| then written else |s.data|;
      if !ok then (d.(temps := d.temps[s.temp := File(s.data[..n], false)]), Going(s.(phase := Removing)))
      else (d.(temps := d.temps[s.temp := File(s.data, false)]), Going(s.(phase := Syncing)))
    case Syncing =>
      if !ok || s.temp !in d.temps then (d, Going(s.(phase := Removing)))
      else (d.(temps := d.temps[s.temp := d.temps[s.temp].(synced := true)]), Going(s.(phase := Closing)))
    case Closing => (d, Going(s.(phase := if ok then Chmoding else Removing)))
    case Chmoding => (d, Going(s.(phase := if ok then Renaming else Removing)))
    case Renaming =>
      if !ok || s.temp !in d.temps then (d, Going(s.(phase := Removing)))
      else (d.(target := Some(d.temps[s.temp]), temps := d.temps - {s.temp}), Going(s.(phase := Caching)))
    case Caching => (d, Returned(None))
    case Removing => (if ok then d.(temps := d.temps - {s.temp}) else d, Returned(Some(Failed)))
  }

  /** What a reader of the path gets: nothing, or what unmarshals (None if that fails). */
  function Reopened(c: Codec, d: Disk): Option<Option<Binding>> {
    if d.target.None? then Some(None)
    else match c.unmarshal(d.target.value.data) case None => None case Some(b) => Some(Some(b))
  }

  // ---- Save from end to end ----

  /** The phase whose operation fails, if any, how much a failing Write wrote, and whether clean-up works. */
  datatype Fate = Fate(failsAt: Option<Phase>, written: nat, removed: bool)

  function Rank(p: Phase): nat {
    match p
    case Marshalling => 10 case MakingDir => 9 case Creating => 8 case Writing => 7 case Syncing => 6
    case Closing => 5 case Chmoding => 4 case Renaming => 3 case Caching => 2 case Removing => 1
  }

  /** All the remaining operations of a Save, one after the other. */
  function Finished(c: Codec, hasDir: bool, d: Disk, s: Saver, fate: Fate): (Disk, Option<SaveError>)
    decreases Rank(s.phase)
  {
    var ok := if s.phase.Removing? then fate.removed else fate.failsAt != Some(s.phase);
    var (after, progress) := Advance(c, hasDir, d, s, ok, fate.written);
    match progress
    case Going(s') => if Rank(s'.phase) < Rank(s.phase) then Finished(c, hasDir, after, s', fate) else (after, None)
    case Returned(err) => (after, err)
  }

  /** Some operation that can fail, from phase `p` on, is the one to fail. */
  predicate Strikes(hasDir: bool, fate: Fate, p: Phase) {
    match fate.failsAt
    case None => false
    case Some(f) => Rank(f) <= Rank(p) && !f.Marshalling? && !f.Caching? && !f.Removing? && (f.MakingDir? ==> hasDir)
  }

  /** One operation of the rest of a Save that does not return. */
  lemma Continues(c: Codec, hasDir: bool, d: Disk, s: Saver, fate: Fate, after: Disk, s': Saver)
    requires !s.phase.Removing? && Rank(s'.phase) < Rank(s.phase)
    requires Advance(c, hasDir, d, s, fate.failsAt != Some(s.phase), fate.written) == (after, Going(s'))
    ensures Finished(c, hasDir, d, s, fate) == Finished(c, hasDir, after, s', fate)
  {
  }

  lemma Ends(c: Codec, hasDir: bool, d: Disk, s: Saver, fate: Fate, after: Disk, err: Option<SaveError>)
    requires !s.phase.Removing?
    requires Advance(c, hasDir, d, s, fate.failsAt != Some(s.phase), fate.written) == (after, Returned(err))
    ensures Finished(c, hasDir, d, s, fate) == (after, err)
  {
  }

  /** An operation that fails once the temporary file exists. */
  lemma CleansUp(c: Codec, hasDir: bool, d: Disk, s: Saver, fate: Fate, after: Disk)
    requires Rank(s.phase) > 2 && fate.failsAt == Some(s.phase)
    requires Advance(c, hasDir, d, s, false, fate.written) == (after, Going(s.(phase := Removing)))
    ensures Finished(c, hasDir, d, s, fate)
         == (if fate.removed then after.(temps := after.temps - {s.temp}) else after, Some(Failed))
  {
    Continues(c, hasDir, d, s, fate, after, s.(phase := Removing));
  }

  predicate HasTemp(p: Phase) {
    p.Writing? || p.Syncing? || p.Closing? || p.Chmoding? || p.Renaming? || p.Removing?
  }

  /** Where a Save that began on disk `d0` stands: only its own temporary file differs until the rename, which
      finds that file written in full and synced. */
  ghost predicate InFlight(c: Codec, d0: Disk, d: Disk, s: Saver) {
    && (!s.phase.Marshalling? ==> c.marshal(s.binding) == Some(s.data))
    && (if HasTemp(s.phase) then s.temp in d.temps && s.temp !in d0.temps && d.temps - {s.temp} == d0.temps
        else d.temps == d0.temps)
    && (s.phase.Syncing? ==> d.temps[s.temp].data == s.data)
    && (s.phase.Closing? || s.phase.Chmoding? || s.phase.Renaming? ==> d.temps[s.temp] == File(s.data, true))
    && d.target == if s.phase.Caching? then Some(File(s.data, true)) else d0.target
  }

  ghost predicate FreshNames(d: Disk) {
    forall t :: t in d.temps ==> t < d.nextTemp
  }

  lemma AdvanceStaysInFlight(c: Codec, hasDir: bool, d0: Disk, d: Disk, s: Saver, ok: bool, written: nat)
    requires FreshNames(d) && InFlight(c, d0, d, s)
    ensures var (after, progress) := Advance(c, hasDir, d, s, ok, written);
            && FreshNames(after) && after.durable == d.durable
            && (progress.Going? ==> progress.saver.binding == s.binding && Rank(progress.saver.phase) < Rank(s.phase))
            && (progress.Going? ==> InFlight(c, d0, after, progress.saver))
            && (progress == Returned(None) ==> s.phase.Caching?)
            && (s.phase.Caching? ==> after == d)
            && (progress.Returned? ==> progress.err.None? || progress.err == Some(Failed))
            && (after.target == d0.target ||
                (after.target == Some(File(s.data, true)) && c.marshal(s.binding) == Some(s.data)))
            && (progress == Returned(None) ==>
                  after.target == Some(File(s.data, true)) && c.marshal(s.binding) == Some(s.data))
            && (progress.Returned? && progress.err.Some? ==> after.target == d0.target)
            && (progress.Returned? && (ok || !s.phase.Removing?) ==> after.temps == d0.temps)
  {
  }

  /** Every operation from here on works. */
  predicate Succeeds(c: Codec, hasDir: bool, s: Saver, fate: Fate) {
    c.marshal(s.binding).Some? && !s.phase.Removing? && !Strikes(hasDir, fate, s.phase)
  }

  predicate Works(s: Saver, fate: Fate) {
    if s.phase.Removing? then fate.removed else fate.failsAt != Some(s.phase)
  }

  lemma AdvanceMeetsItsFate(c: Codec, hasDir: bool, d0: Disk, d: Disk, s: Saver, fate: Fate)
    requires InFlight(c, d0, d, s)
    ensures var progress := Advance(c, hasDir, d, s, Works(s, fate), fate.written).1;
            Succeeds(c, hasDir, s, fate) <==>
              match progress
              case Going(s') => Succeeds(c, hasDir, s', fate)
              case Returned(err) => err.None?
  {
  }

  /** Save is all or nothing: it returns nil with the whole synced file under the path, or an error with the
      path as it was; and it leaves no temporary file behind unless removing it fails. */
  lemma {:induction false} SaveIsAllOrNothing(c: Codec, hasDir: bool, d0: Disk, d: Disk, s: Saver, fate: Fate)
    requires FreshNames(d) && InFlight(c, d0, d, s)
    ensures var (after, err) := Finished(c, hasDir, d, s, fate);
            && FreshNames(after) && after.durable == d.durable && (err.None? || err == Some(Failed))
            && (err.None? <==> Succeeds(c, hasDir, s, fate))
            && (err.Some? ==> after.target == d0.target)
            && (err.None? ==>
                  c.marshal(s.binding).Some? && after.target == Some(File(c.marshal(s.binding).value, true)))
            && (fate.removed || err.None? ==> after.temps == d0.temps)
    decreases Rank(s.phase)
  {
    hide FreshNames, InFlight, Advance, Succeeds;
    AdvanceStaysInFlight(c, hasDir, d0, d, s, Works(s, fate), fate.written);
    AdvanceMeetsItsFate(c, hasDir, d0, d, s, fate);
    var (after, progress) := Advance(c, hasDir, d, s, Works(s, fate), fate.written);
    if progress.Going? {
      SaveIsAllOrNothing(c, hasDir, d0, after, progress.saver, fate);
    }
  }

  class Store {
    const codec: Codec
    const hasDir: bool
    var disk: Disk
    var binding: Option<Binding>

    ghost predicate Valid()
      reads this
    {
      && codec.RoundTrips()
      && FreshNames(disk)
      && Reopened(codec, disk) == Some(binding)
    }

    /** NewStore: `readable` is false for a read that fails other than by the file not existing. */
    static method Open(codec: Codec, hasDir: bool, disk: Disk, readable: bool) returns (store: Option<Store>)
      requires codec.RoundTrips() && FreshNames(disk)
      ensures store.Some? <==> readable && Reopened(codec, disk).Some?
      ensures store.Some? ==> fresh(store.value) && store.value.Valid() && store.value.disk == disk
      ensures store.Some? ==> store.value.codec == codec && store.value.hasDir == hasDir
    {
      if !readable {
        return None;
      }
      if disk.target.None? {
        var s := new Store(codec, hasDir, disk, None);
        return Some(s);
      }
      var binding := codec.unmarshal(disk.target.value.data);
      if binding.None? {
        return None;
      }
      var s := new Store(codec, hasDir, disk, binding);
      return Some(s);
    }

    constructor (codec: Codec, hasDir: bool, disk: Disk, binding: Option<Binding>)
      ensures this.codec == codec && this.hasDir == hasDir && this.disk == disk && this.binding == binding
    {
      this.codec, this.hasDir, this.disk, this.binding := codec, hasDir, disk, binding;
    }

    /** The deferred clean-up. */
    method Remove(temp: nat, removed: bool)
      modifies `disk
      ensures disk == if removed then old(disk).(temps := old(disk).temps - {temp}) else old(disk)
    {
      if removed {
        disk := disk.(temps := disk.temps - {temp});
      }
    }

    method Save(binding: Option<Binding>, fate: Fate) returns (err: Option<SaveError>)
      requires Valid()
      modifies this
      ensures Valid()
      ensures err == Some(ErrNilBinding) <==> binding.None?
      ensures err == Some(ErrAlreadyBound) <==> binding.Some? && old(this.binding).Some?
      ensures err.None? <==>
                && binding.Some? && old(this.binding).None?
                && Succeeds(codec, hasDir, Saver(binding.value, Marshalling, [], 0), fate)
      ensures err.Some? ==> this.binding == old(this.binding) && disk.target == old(disk).target
      ensures err.None? ==>
                && this.binding == binding && codec.marshal(binding.value).Some?
                && disk.target == Some(File(codec.marshal(binding.value).value, true))
      ensures fate.removed || err.None? ==> disk.temps == old(disk).temps
      ensures disk.durable == old(disk).durable
    {
      if binding.None? {
        return Some(ErrNilBinding);
      }
      if this.binding.Some? {
        return Some(ErrAlreadyBound);
      }
      SaveIsAllOrNothing(codec, hasDir, disk, disk, Saver(binding.value, Marshalling, [], 0), fate);
      err := Write(binding.value, fate);
    }

    /** Save after its two guards. */
    method Write(binding: Binding, fate: Fate) returns (err: Option<SaveError>)
      requires FreshNames(disk)
      modifies this
      ensures (disk, err) == Finished(codec, hasDir, old(disk), Saver(binding, Marshalling, [], 0), fate)
      ensures this.binding == if err.None? then Some(binding) else old(this.binding)
    {
      hide Finished;
      ghost var s, was := Saver(binding, Marshalling, [], 0), disk;
      var data := codec.marshal(binding);
      if data.None? {
        Ends(codec, hasDir, disk, s, fate, disk, Some(Failed));
        return Some(Failed);
      }
      Continues(codec, hasDir, was, s, fate, disk, s.(phase := MakingDir, data := data.value));
      s := s.(phase := MakingDir, data := data.value);
      if hasDir && fate.failsAt == Some(MakingDir) {
        Ends(codec, hasDir, disk, s, fate, disk, Some(Failed));
        return Some(Failed);
      }
      Continues(codec, hasDir, was, s, fate, disk, s.(phase := Creating));
      s := s.(phase := Creating);
      if fate.failsAt == Some(Creating) {
        Ends(codec, hasDir, disk, s, fate, disk, Some(Failed));
        return Some(Failed);
      }
      var temp := disk.nextTemp;
      disk := disk.(temps := disk.temps[temp := File([], false)], nextTemp := temp + 1);
      Continues(codec, hasDir, was, s, fate, disk, s.(phase := Writing, temp := temp));
      s := s.(phase := Writing, temp := temp);
      err := Fill(binding, data.value, temp, fate);
    }

    /** Save once the temporary file exists: fill it, sync it and rename it. */
    method Fill(binding: Binding, data: seq<byte>, temp: nat, fate: Fate) returns (err: Option<SaveError>)
      requires temp in disk.temps
      modifies this
      ensures (disk, err) == Finished(codec, hasDir, old(disk), Saver(binding, Writing, data, temp), fate)
      ensures this.binding == if err.None? then Some(binding) else old(this.binding)
    {
      hide Finished;
      ghost var s, was := Saver(binding, Writing, data, temp), disk;
      if fate.failsAt == Some(Writing) {
        var n := if fate.written <= |data| then fate.written else |data|;
        disk := disk.(temps := disk.temps[temp := File(data[..n], false)]);
        CleansUp(codec, hasDir, was, s, fate, disk);
        Remove(temp, fate.removed);
        return Some(Failed);
      }
      disk := disk.(temps := disk.temps[temp := File(data, false)]);
      Continues(codec, hasDir, was, s, fate, disk, s.(phase := Syncing));
      s := s.(phase := Syncing);
      was := disk;
      if fate.failsAt == Some(Syncing) {
        CleansUp(codec, hasDir, was, s, fate, disk);
        Remove(temp, fate.removed);
        return Some(Failed);
      }
      disk := disk.(temps := disk.temps[temp := disk.temps[temp].(synced := true)]);
      Continues(codec, hasDir, was, s, fate, disk, s.(phase := Closing));
      s := s.(phase := Closing);
      was := disk;
      if fate.failsAt == Some(Closing) {
        CleansUp(codec, hasDir, was, s, fate, disk);
        Remove(temp, fate.removed);
        return Some(Failed);
      }
      Continues(codec, hasDir, was, s, fate, disk, s.(phase := Chmoding));
      s := s.(phase := Chmoding);
      if fate.failsAt == Some(Chmoding) {
        CleansUp(codec, hasDir, was, s, fate, disk);
        Remove(temp, fate.removed);
        return Some(Failed);
      }
      Continues(codec, hasDir, was, s, fate, disk, s.(phase := Renaming));
      s := s.(phase := Renaming);
      if fate.failsAt == Some(Renaming) {
        CleansUp(codec, hasDir, was, s, fate, disk);
        Remove(temp, fate.removed);
        return Some(Failed);
      }
      disk := disk.(target := Some(disk.temps[temp]), temps := disk.temps - {temp});
      Continues(codec, hasDir, was, s, fate, disk, s.(phase := Caching));
      s := s.(phase := Caching);
      Ends(codec, hasDir, disk, s, fate, disk, None);
      this.binding := Some(binding);
      return None;
    }

    /** Whether a store opened on the same disk would be bound. */
    method IsBound() returns (bound: bool)
      requires Valid()
      ensures Reopened(codec, disk).Some? && (bound <==> Reopened(codec, disk).value.Some?)
    {
      bound := binding.Some?;
    }

    /** What a store opened on the same disk would give. */
    method Get() returns (b: Option<Binding>)
      requires Valid()
      ensures Reopened(codec, disk) == Some(b)
    {
      b := binding;
    }
  }
}
