/**
 * sandbox.py as its classes: the two container pools, the sessions, and the manager that keys
 * sessions by conversation and pool. One call at a time; SandboxPool has the threads.
 */
module Sandbox {
  import opened Wrappers
  import opened SandboxPool

  const NETWORKED := "networked"

  type File = string

  /** The pool, and the files that lie in the work and plot directories of its containers. */
  class ContainerPool {
    var pool: Pool
    var files: map<Container, set<File>>

    ghost predicate Valid()
      reads this
    {
      && IsConserved(pool) && (pool.destroysOnRelease ==> pool.idle == {})
      && forall c | c in files :: c < pool.created
    }

    function FilesIn(c: Container): set<File>
      reads this
    {
      if c in files then files[c] else {}
    }

    constructor (max: nat, destroysOnRelease: bool)
      ensures Valid() && pool == Pool(max, destroysOnRelease, {}, {}, 0, 0)
    {
      pool := Pool(max, destroysOnRelease, {}, {}, 0, 0);
      files := map[];
    }

    /** An idle container with whatever lies in it, else a new and empty one, else nothing. */
    method Acquire() returns (c: Option<Container>)
      requires Valid()
      modifies this`pool
      ensures Valid()
      ensures c.Some? ==> CanTake(old(pool), c.value) && pool == Took(old(pool), c.value)
      ensures c.Some? && c.value !in old(pool).idle ==> FilesIn(c.value) == {}
      ensures c.None? ==> pool == old(pool) && pool.idle == {} && |pool.out| == pool.max
    {
      if pool.idle != {} {
        var warm :| warm in pool.idle;
        TakingConserves(pool, warm);
        pool := Took(pool, warm);
        return Some(warm);
      }
      if |pool.out| >= pool.max {
        return None;
      }
      TakingConserves(pool, pool.created);
      c := Some(pool.created);
      pool := Took(pool, pool.created);
    }

    method Release(c: Container)
      requires Valid() && c in pool.out
      modifies this`pool
      ensures Valid() && pool == Returned(old(pool), c)
    {
      ReturningConserves(pool, c);
      pool := Returned(pool, c);
    }

    method SetFiles(c: Container, content: set<File>)
      requires Valid() && c in pool.out
      modifies this`files
      ensures Valid() && files == old(files)[c := content]
    {
      files := files[c := content];
    }
  }

  function FileSet(fs: seq<File>): set<File> {
    set f | f in fs
  }

  datatype Entered = Reused | Acquired | Exhausted

  class CanvasSandboxSession {
    const source: ContainerPool
    var held: bool
    var slot: Option<Container>
    var plotting: bool

    ghost predicate Valid()
      reads this, source
    {
      && source.Valid()
      && held == slot.Some?
      && (slot.Some? ==> slot.value in source.pool.out)
    }

    /** The files the session's calls find. */
    function Files(): set<File>
      reads this, source
    {
      if slot.Some? then source.FilesIn(slot.value) else {}
    }

    constructor (source: ContainerPool, plotting: bool)
      requires source.Valid()
      ensures Valid() && this.source == source && !held && this.plotting == plotting
    {
      this.source := source;
      this.plotting := plotting;
      held, slot := false, None;
    }

    /**
     * The first enter of a turn takes a container and cleans it, so the turn begins without a file of
     * another one; later enters leave its files alone, so what one call wrote the next one finds. A
     * clean that fails (`cleans` is false) is passed over, and an old file may then be there.
     */
    method Enter(cleans: bool) returns (r: Entered)
      requires Valid()
      modifies this`held, this`slot, source
      ensures Valid()
      ensures r == Reused <==> old(held)
      ensures r == Reused ==> held && slot == old(slot) && source.pool == old(source.pool) && source.files == old(source.files)
      ensures r == Acquired ==> held && slot.Some? && CanTake(old(source.pool), slot.value)
                                && source.pool == Took(old(source.pool), slot.value)
      ensures r == Acquired && (cleans || slot.value !in old(source.pool).idle) ==> Files() == {}
      ensures r == Acquired ==> source.files == if cleans then old(source.files)[slot.value := {}] else old(source.files)
      ensures r == Exhausted ==> !held && source.pool == old(source.pool) && source.files == old(source.files)
                                 && |source.pool.out| == source.pool.max
    {
      if held {
        return Reused;
      }
      var c := source.Acquire();
      if c.None? {
        return Exhausted;
      }
      slot, held := c, true;
      if cleans {
        source.SetFiles(c.value, {});
      }
      r := Acquired;
    }

    /** A call of the turn writes a file into its container. */
    method Write(f: File)
      requires Valid() && held
      modifies source`files
      ensures Valid() && held == old(held) && slot == old(slot)
      ensures source.files == old(source.files)[slot.value := old(Files()) + {f}]
    {
      source.SetFiles(slot.value, source.FilesIn(slot.value) + {f});
    }

    /** The calls of a turn, one after the other. */
    method WriteAll(fs: seq<File>)
      requires Valid() && held
      modifies source`files
      ensures Valid() && held == old(held) && slot == old(slot)
      ensures source.files == if fs == [] then old(source.files) else old(source.files)[slot.value := old(Files()) + FileSet(fs)]
    {
      for i := 0 to |fs|
        invariant Valid()
        invariant source.files == if i == 0 then old(source.files)
                                  else old(source.files)[slot.value := old(Files()) + FileSet(fs[..i])]
      {
        assert FileSet(fs[..i + 1]) == FileSet(fs[..i]) + {fs[i]};
        assert Files() == old(Files()) + FileSet(fs[..i]);
        ghost var before := source.files;
        Write(fs[i]);
        assert source.files[slot.value] == old(Files()) + FileSet(fs[..i + 1]);
        assert source.files == before[slot.value := source.files[slot.value]];
      }
      assert fs[..|fs|] == fs;
    }

    /** Leaving a `with` block gives nothing back. */
    method Exit()
      requires Valid()
      ensures Valid() && held == old(held) && slot == old(slot)
    {
    }

    /** The end of the turn gives back the one container, and a session that has none gives nothing. */
    method Close()
      requires Valid()
      modifies this`held, this`slot, source
      ensures Valid() && !held && source.files == old(source.files)
      ensures source.pool == if old(held) then Returned(old(source.pool), old(slot).value) else old(source.pool)
    {
      if !held {
        return;
      }
      held := false;
      source.Release(slot.value);
      slot := None;
    }
  }

  /** One turn on a pool: it takes a container, cleans it, writes, and gives it back. */
  method OneTurn(source: ContainerPool, written: seq<File>) returns (used: Option<Container>)
    requires source.Valid()
    modifies source
    ensures source.Valid()
    ensures used.None? ==> source.pool == old(source.pool) && |source.pool.out| == source.pool.max
    ensures used.Some? ==> && CanTake(old(source.pool), used.value)
                           && source.pool == Returned(Took(old(source.pool), used.value), used.value)
                           && source.FilesIn(used.value) == FileSet(written)
  {
    var session := new CanvasSandboxSession(source, false);
    var entered := session.Enter(true);
    if entered == Exhausted {
      return None;
    }
    used := session.slot;
    session.WriteAll(written);
    session.Close();
  }

  /**
   * Two turns after each other on the same pool, whatever else it has out, with the calls of the first
   * writing any files. The second finds no file when its clean works, and on the networked pool even
   * when it does not. Else it finds what lies in its container: when that is the container of the
   * first turn, exactly what that turn wrote.
   */
  method TwoTurns(source: ContainerPool, written: seq<File>, cleans: bool) returns (first: bool, second: bool, same: bool, seen: set<File>)
    requires source.Valid()
    modifies source
    ensures source.Valid() && first == second
    ensures second && (cleans || source.pool.destroysOnRelease) ==> seen == {}
    ensures same ==> second && !source.pool.destroysOnRelease
    ensures same && !cleans ==> seen == FileSet(written)
  {
    var used := OneTurn(source, written);
    var session := new CanvasSandboxSession(source, false);
    var entered := session.Enter(cleans);
    first, second, same := used.Some?, entered == Acquired, entered == Acquired && session.slot == used;
    seen := session.Files();
  }

  /** What a turn leaves behind in the locked pool, where it got a warm container. */
  lemma WarmTurnLeavesPoolAsItWas(p: Pool, c: Container)
    requires IsConserved(p) && c in p.idle && !p.destroysOnRelease
    ensures Returned(Took(p, c), c) == p
  {
    assert p.idle - {c} + {c} == p.idle;
    assert p.out + {c} - {c} == p.out;
  }

  /** What a turn leaves behind in the networked pool: one container less to come, nothing to reuse. */
  lemma NetworkedTurnLeavesNothing(p: Pool, c: Container)
    requires IsConserved(p) && CanTake(p, c) && p.destroysOnRelease
    ensures var q := Returned(Took(p, c), c);
            q.out == p.out && q.idle == p.idle - {c} && q.destroyed == p.destroyed + 1 && c < q.created && c !in q.idle
  {
    assert p.out + {c} - {c} == p.out;
  }

  // -------------------------------------------------------------------------------------------
  // The manager
  // -------------------------------------------------------------------------------------------

  datatype Key = Key(conversation: string, pool: string)

  /** The fields of a session, for the map of the manager. */
  datatype SessionState = SessionState(slot: Option<Container>, plotting: bool)

  function PoolOf(locked: Option<Pool>, networked: Option<Pool>, pool: string): Option<Pool> {
    if pool == NETWORKED then networked else locked
  }

  /** Each session has its pool, and what it holds is out of that pool. */
  ghost predicate HavePools(sessions: map<Key, SessionState>, locked: Option<Pool>, networked: Option<Pool>) {
    forall k | k in sessions ::
      var pool := PoolOf(locked, networked, k.pool);
      pool.Some? && (sessions[k].slot.Some? ==> sessions[k].slot.value in pool.value.out)
  }

  /** No two sessions of a pool hold the same container. */
  ghost predicate AreApart(sessions: map<Key, SessionState>) {
    forall j, k | j in sessions && k in sessions && sessions[j].slot.Some? && sessions[j].slot == sessions[k].slot
      && (j.pool == NETWORKED <==> k.pool == NETWORKED) :: j == k
  }

  /** A container that was not out is nobody else's. */
  lemma TakingKeepsApart(sessions: map<Key, SessionState>, locked: Option<Pool>, networked: Option<Pool>, k: Key, c: Container)
    requires HavePools(sessions, locked, networked) && AreApart(sessions) && k in sessions
    requires var p := PoolOf(locked, networked, k.pool).value; IsConserved(p) && CanTake(p, c)
    ensures AreApart(sessions[k := sessions[k].(slot := Some(c))])
  {
  }

  lemma TakingKeepsPools(sessions: map<Key, SessionState>, locked: Option<Pool>, networked: Option<Pool>, k: Key, c: Container)
    requires HavePools(sessions, locked, networked) && k in sessions
    ensures var after := Some(Took(PoolOf(locked, networked, k.pool).value, c));
            HavePools(sessions[k := sessions[k].(slot := Some(c))],
                      if k.pool == NETWORKED then locked else after, if k.pool == NETWORKED then after else networked)
  {
  }

  /** The sessions by key, over the two pools; a session is held exactly when its slot is full. */
  class SandboxManager {
    var locked: Option<Pool>
    var networked: Option<Pool>
    var sessions: map<Key, SessionState>

    function PoolFor(pool: string): Option<Pool>
      reads this
    {
      PoolOf(locked, networked, pool)
    }

    ghost predicate Valid()
      reads this
    {
      && (locked.Some? ==> IsConserved(locked.value) && !locked.value.destroysOnRelease)
      && (networked.Some? ==> IsConserved(networked.value) && networked.value.destroysOnRelease)
      && HavePools(sessions, locked, networked) && AreApart(sessions)
    }

    constructor ()
      ensures Valid() && sessions == map[] && locked.None? && networked.None?
    {
      locked, networked, sessions := None, None, map[];
    }

    /** The locked pool is made once, at startup. */
    method InitializePool(max: nat)
      requires Valid()
      modifies this`locked
      ensures Valid()
      ensures locked == if old(locked).Some? then old(locked) else Some(Pool(max, false, {}, {}, 0, 0))
    {
      if locked.None? {
        locked := Some(Pool(max, false, {}, {}, 0, 0));
      }
    }

    /** One session per conversation and pool, made on first use, as the networked pool is. */
    method GetSession(k: Key, plotting: bool, networkedMax: nat) returns (ok: bool)
      requires Valid()
      modifies this`networked, this`sessions
      ensures Valid()
      ensures ok <==> k in old(sessions) || k.pool == NETWORKED || locked.Some?
      ensures !ok ==> sessions == old(sessions)
      ensures ok ==>
        sessions == old(sessions)[k := SessionState(if k in old(sessions) then old(sessions)[k].slot else None, plotting)]
      ensures networked ==
        if k !in old(sessions) && k.pool == NETWORKED && old(networked).None? then Some(Pool(networkedMax, true, {}, {}, 0, 0))
        else old(networked)
    {
      if k in sessions {
        sessions := sessions[k := sessions[k].(plotting := plotting)];
        return true;
      }
      if k.pool == NETWORKED && networked.None? {
        networked := Some(Pool(networkedMax, true, {}, {}, 0, 0));
      }
      if PoolFor(k.pool).None? {
        return false;
      }
      sessions := sessions[k := SessionState(None, plotting)];
      ok := true;
    }

    method SetPool(pool: string, p: Pool)
      modifies this`locked, this`networked
      ensures PoolFor(pool) == Some(p)
      ensures if pool == NETWORKED then locked == old(locked) else networked == old(networked)
    {
      if pool == NETWORKED {
        networked := Some(p);
      } else {
        locked := Some(p);
      }
    }

    /** A container of its pool is put in a session's slot. */
    method Fill(k: Key, c: Container)
      requires Valid() && k in sessions && sessions[k].slot.None? && CanTake(PoolFor(k.pool).value, c)
      modifies this
      ensures Valid() && sessions == old(sessions)[k := old(sessions)[k].(slot := Some(c))]
      ensures PoolFor(k.pool) == Some(Took(old(PoolFor(k.pool)).value, c))
      ensures if k.pool == NETWORKED then locked == old(locked) else networked == old(networked)
    {
      var p := PoolFor(k.pool).value;
      TakingConserves(p, c);
      TakingKeepsApart(sessions, locked, networked, k, c);
      TakingKeepsPools(sessions, locked, networked, k, c);
      SetPool(k.pool, Took(p, c));
      sessions := sessions[k := sessions[k].(slot := Some(c))];
    }

    /** The first enter of a session takes a container of the pool its key names, and no other session gets that one. */
    method EnterSession(k: Key) returns (r: Entered)
      requires Valid() && k in sessions
      modifies this
      ensures Valid()
      ensures r == Reused <==> old(sessions)[k].slot.Some?
      ensures r != Acquired ==> sessions == old(sessions) && locked == old(locked) && networked == old(networked)
      ensures r == Exhausted ==> var p := PoolFor(k.pool).value; p.idle == {} && |p.out| == p.max
      ensures r == Acquired ==> k in sessions && sessions[k].slot.Some? && CanTake(old(PoolFor(k.pool)).value, sessions[k].slot.value)
      ensures r == Acquired ==> PoolFor(k.pool) == Some(Took(old(PoolFor(k.pool)).value, sessions[k].slot.value))
      ensures r == Acquired ==> sessions == old(sessions)[k := old(sessions)[k].(slot := sessions[k].slot)]
      ensures if k.pool == NETWORKED then locked == old(locked) else networked == old(networked)
    {
      if sessions[k].slot.Some? {
        return Reused;
      }
      var p := PoolFor(k.pool).value;
      var c := p.created;
      if p.idle != {} {
        c :| c in p.idle;
      } else if |p.out| >= p.max {
        return Exhausted;
      }
      Fill(k, c);
      r := Acquired;
    }

    /** Takes one session out and closes it. */
    method CloseSession(k: Key)
      requires Valid() && k in sessions
      modifies this
      ensures Valid() && sessions == old(sessions) - {k}
      ensures old(sessions)[k].slot.None? ==> locked == old(locked) && networked == old(networked)
      ensures old(sessions)[k].slot.Some? ==>
        PoolFor(k.pool) == Some(Returned(old(PoolFor(k.pool)).value, old(sessions)[k].slot.value))
      ensures if k.pool == NETWORKED then locked == old(locked) else networked == old(networked)
      ensures Shrank(old(locked), locked) && Shrank(old(networked), networked)
    {
      var slot := sessions[k].slot;
      sessions := sessions - {k};
      if slot.Some? {
        var p := PoolFor(k.pool).value;
        ReturningConserves(p, slot.value);
        SetPool(k.pool, Returned(p, slot.value));
      }
    }

    /** The containers that sessions had are not out. */
    ghost predicate NothingOut(before: map<Key, SessionState>, keys: set<Key>)
      reads this
    {
      forall k | k in before && k in keys && before[k].slot.Some? ::
        PoolFor(k.pool).Some? && before[k].slot.value !in PoolFor(k.pool).value.out
    }

    method CloseNext(k: Key, ghost before: map<Key, SessionState>, ghost done: set<Key>)
      requires Valid() && k in before && k !in done
      requires sessions == before - done && NothingOut(before, done)
      modifies this
      ensures Valid() && sessions == before - (done + {k}) && NothingOut(before, done + {k})
    {
      assert sessions[k] == before[k];
      CloseSession(k);
      assert sessions == before - (done + {k});
    }

    /**
     * The end of a turn: every session of the conversation, in whichever pool, is forgotten and its
     * container is no longer out; the sessions of other conversations keep theirs.
     */
    method ReleaseSession(conversation: string)
      requires Valid()
      modifies this
      ensures Valid()
      ensures sessions == old(sessions) - KeysOf(old(sessions), conversation)
      ensures NothingOut(old(sessions), KeysOf(old(sessions), conversation))
    {
      var rest := KeysOf(sessions, conversation);
      ghost var keys, before, done := rest, sessions, {};
      while rest != {}
        invariant rest <= before.Keys && IsSplit(keys, done, rest)
        invariant Valid() && sessions == before - done && NothingOut(before, done)
        decreases |rest|
      {
        var k :| k in rest;
        MoveOne(keys, done, rest, k);
        CloseNext(k, before, done);
        rest, done := rest - {k}, done + {k};
      }
    }
  }

  predicate IsSplit(keys: set<Key>, done: set<Key>, rest: set<Key>) {
    done * rest == {} && done + rest == keys
  }

  lemma MoveOne(keys: set<Key>, done: set<Key>, rest: set<Key>, k: Key)
    requires IsSplit(keys, done, rest) && k in rest
    ensures IsSplit(keys, done + {k}, rest - {k}) && k !in done && |rest - {k}| < |rest|
  {
    assert k in done ==> k in done * rest;
  }

  function KeysOf(sessions: map<Key, SessionState>, conversation: string): set<Key> {
    set k | k in sessions && k.conversation == conversation
  }

  /** Nothing was taken from the pool. */
  predicate Shrank(before: Option<Pool>, after: Option<Pool>) {
    before.Some? == after.Some? && (before.Some? ==> after.value.out <= before.value.out)
  }
}
