/** The mutex-protected state of a write-behind data center (PlayerDC, AllianceDC and WorldDC are
    three copies of one protocol) and its critical sections.

    Every critical section is given twice: as a function on the record `Shared`, which the step
    system of module WriteBehind interleaves, and as a method of class `DataCenter`, which changes
    the fields in place and is proved against that function. */
module DataCenterState {
  import opened Wrappers

  /** A versioned snapshot. The dirty-field list and change log a real snapshot also carries are not
      used by the repository, which replaces the whole document by `state`. */
  datatype Snap<+S> = Snap(version: nat, state: S)

  /** `notify` names the current broadcast channel; channels are numbered in order of creation and
      `closedNotify` holds the ones already closed. `wake` is the one-slot wake channel, and the
      stop channel is closed exactly when `closed` is set, because both happen under the lock. */
  datatype Shared<S> = Shared(
    pending: Option<Snap<S>>,
    version: nat,
    persisted: nat,
    closed: bool,
    wake: bool,
    notify: nat,
    closedNotify: set<nat>,
    done: bool)

  function Bump<S>(sh: Shared<S>): (Shared<S>, Option<nat>) {
    if sh.closed then (sh, None)
    else (sh.(version := sh.version + 1), Some(sh.version + 1))
  }

  /** The mailbox keeps only the newest snapshot. */
  function Coalesce<S>(pending: Option<Snap<S>>, s: Snap<S>): Option<Snap<S>> {
    if pending.None? || pending.value.version < s.version then Some(s) else pending
  }

  function Enqueue<S>(sh: Shared<S>, s: Snap<S>): (Shared<S>, bool) {
    if sh.closed then (sh, false)
    else (sh.(pending := Coalesce(sh.pending, s)), true)
  }

  function Pop<S>(sh: Shared<S>): (Shared<S>, Option<Snap<S>>) {
    (sh.(pending := None), sh.pending)
  }

  function Requeue<S>(sh: Shared<S>, s: Snap<S>): (Shared<S>, bool) {
    if sh.closed || s.version < sh.version then (sh, false)
    else (sh.(pending := Coalesce(sh.pending, s)), true)
  }

  /** Returns the channel the caller has to close after leaving the critical section. */
  function Mark<S>(sh: Shared<S>, version: nat): (Shared<S>, Option<nat>) {
    if version <= sh.persisted then (sh, None)
    else (sh.(persisted := version, notify := sh.notify + 1), Some(sh.notify))
  }

  class DataCenter<S(0)> {
    var pending: Option<Snap<S>>
    var version: nat
    var persisted: nat
    var closed: bool
    var wake: bool
    var notify: nat
    var closedNotify: set<nat>
    var done: bool

    ghost function View(): Shared<S>
      reads this
    {
      Shared(pending, version, persisted, closed, wake, notify, closedNotify, done)
    }

    constructor ()
      ensures View() == Shared(None, 0, 0, false, false, 0, {}, false)
    {
      pending, version, persisted, closed := None, 0, 0, false;
      wake, notify, closedNotify, done := false, 0, {}, false;
    }

    method NextVersion() returns (v: Option<nat>)
      modifies this
      ensures (View(), v) == Bump(old(View()))
    {
      if closed {
        return None;
      }
      version := version + 1;
      v := Some(version);
    }

    method EnqueueLatest(s: Snap<S>) returns (send: bool)
      modifies this
      ensures (View(), send) == Enqueue(old(View()), s)
    {
      if closed {
        return false;
      }
      if pending.None? || pending.value.version < s.version {
        pending := Some(s);
      }
      send := true;
    }

    method PopPending() returns (s: Option<Snap<S>>)
      modifies this
      ensures (View(), s) == Pop(old(View()))
    {
      s := pending;
      pending := None;
    }

    method RequeueOnError(s: Snap<S>) returns (send: bool)
      modifies this
      ensures (View(), send) == Requeue(old(View()), s)
    {
      if closed {
        return false;
      }
      if s.version < version {
        return false;
      }
      if pending.None? || pending.value.version < s.version {
        pending := Some(s);
      }
      send := true;
    }

    method MarkPersisted(v: nat) returns (oldNotify: Option<nat>)
      modifies this
      ensures (View(), oldNotify) == Mark(old(View()), v)
    {
      if v <= persisted {
        return None;
      }
      persisted := v;
      oldNotify := Some(notify);
      notify := notify + 1;
    }
  }
}
