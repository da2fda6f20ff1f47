/** The watcher's cached change token of the feature database (feature_database.py).

    The file is outside the process: other connections commit to it and it may be replaced by another
    file at any moment, in particular between two system calls of one `Read`.  `World` is one instant
    of that environment and a call of `Read` spans six of them. */
module TokenCache {
  import opened Wrappers

  /** Device and inode number. */
  type FileId = (int, int)

  /** What is at the database path at one instant: the file, how many commits each file has seen,
      and which files were ever at the path. */
  datatype World = World(current: Option<FileId>, commits: FileId -> nat, seen: set<FileId>)

  /** One `lstat` of the path and its sidecars. */
  datatype Files = Files(id: FileId, details: string)

  /** Commits accumulate, and a file that has left the path never returns to it. */
  ghost predicate Evolves(a: World, b: World) {
    && (forall id :: a.commits(id) <= b.commits(id))
    && a.seen <= b.seen
    && (a.current.Some? ==> a.current.value in a.seen)
    && (b.current.Some? ==> b.current.value in b.seen)
    && (b.current == a.current || (b.current.Some? ==> b.current.value !in a.seen))
  }

  lemma EvolvesTransitively(a: World, b: World, c: World)
    requires Evolves(a, b) && Evolves(b, c)
    ensures Evolves(a, c)
    ensures a.current == c.current && a.current.Some? ==> b.current == a.current
  {
    forall id ensures a.commits(id) <= c.commits(id) {
      assert a.commits(id) <= b.commits(id) <= c.commits(id);
    }
  }

  /** The six instants of one call, in order. */
  datatype Instants = Instants(stat: World, open: World, version: World, reader: World, statAgain: World, versionAgain: World)

  ghost predicate Chain(ws: seq<World>) {
    |ws| >= 2 ==> Evolves(ws[0], ws[1]) && Chain(ws[1..])
  }

  ghost predicate InOrder(before: World, t: Instants) {
    Chain([before, t.stat, t.open, t.version, t.reader, t.statAgain, t.versionAgain])
  }

  ghost predicate Gone(id: FileId, w: World) {
    id in w.seen && w.current != Some(id)
  }

  /** What the system calls of one `Read` answer; `None` is an exception. */
  datatype Answers = Answers(files: Option<Files>, connects: bool, versionBase: int, version: Option<int>,
                             token: Option<string>, filesAgain: Option<Files>, versionAgain: Option<int>)

  datatype Outcome = Raised | Token(token: string)

  class FeatureDatabaseTokenCache {
    /** The token the uncached reader computes from a file after so many commits. */
    ghost const tokenOf: (FileId, nat) -> string
    var stamp: Option<(Files, int)>
    var token: Option<string>
    var checkedAt: real
    var connected: bool
    var identity: Option<FileId>
    var closed: bool
    /** The file the open connection really observes and the value its `data_version` started from. */
    ghost var attached: FileId
    ghost var base: int
    ghost var world: World

    ghost predicate Valid()
      reads this
    {
      && (world.current.Some? ==> world.current.value in world.seen)
      && (connected ==> identity.Some? && (attached == identity.value || Gone(identity.value, world)))
      && (!connected ==> stamp == None)
      && (stamp.Some? ==>
            && token.Some? && stamp.value.0.id == identity.value == attached
            && 0 <= stamp.value.1 - base <= world.commits(attached)
            && token.value == tokenOf(attached, stamp.value.1 - base))
    }

    constructor (ghost tokenOf: (FileId, nat) -> string, ghost world: World)
      requires world.current.Some? ==> world.current.value in world.seen
      ensures Valid() && !closed && this.world == world && this.tokenOf == tokenOf
    {
      this.tokenOf := tokenOf;
      this.world := world;
      stamp, token, checkedAt, connected, identity, closed := None, None, 0.0, false, None, false;
    }

    /** The token the uncached reader returns at instant `w`. */
    ghost function UncachedToken(w: World): Option<string> {
      if w.current.Some? then Some(tokenOf(w.current.value, w.commits(w.current.value))) else None
    }

    ghost predicate UncachedDuring(t: Instants, result: string) {
      || UncachedToken(t.stat) == Some(result)
      || UncachedToken(t.reader) == Some(result)
    }

    /** The answers agree with what was true at their instants.  A connection opened in this call
        observes the file then at the path, which need not be the one just looked at. */
    ghost predicate Truthful(a: Answers, t: Instants, observed: FileId, observedBase: int) {
      && (a.files.Some? ==> t.stat.current == Some(a.files.value.id))
      && (a.connects ==> t.open.current.Some?)
      && (a.version.Some? ==> a.version.value == observedBase + t.version.commits(observed))
      && (a.token.Some? ==> UncachedToken(t.reader) == a.token)
      && (a.filesAgain.Some? ==> t.statAgain.current == Some(a.filesAgain.value.id))
      && (a.versionAgain.Some? ==> a.versionAgain.value == observedBase + t.versionAgain.commits(observed))
    }

    predicate NeedsConnection(files: Files)
      reads this
    {
      !connected || identity != Some(files.id)
    }

    ghost function ObservedFile(a: Answers, t: Instants): FileId
      reads this
    {
      if a.files.Some? && NeedsConnection(a.files.value) && t.open.current.Some? then t.open.current.value else attached
    }

    ghost function ObservedBase(a: Answers): int
      reads this
    {
      if a.files.Some? && NeedsConnection(a.files.value) then a.versionBase else base
    }

    method Disconnect()
      requires Valid()
      modifies this`connected, this`identity, this`stamp
      ensures Valid() && !connected
    {
      connected, identity, stamp := false, None, None;
    }

    /** Open a connection to whatever is at the path at instant `w`. */
    method Connect(files: Files, a: Answers, ghost w: World) returns (ok: bool)
      requires Valid() && (a.connects ==> w.current.Some?)
      requires w.current == Some(files.id) || Gone(files.id, world)
      modifies this`connected, this`identity, this`stamp, this`attached, this`base
      ensures Valid() && stamp == None && ok == a.connects
      ensures ok ==> connected && identity == Some(files.id) && attached == w.current.value && base == a.versionBase
    {
      Disconnect();
      if !a.connects {
        return false;
      }
      connected, identity := true, Some(files.id);
      attached, base := w.current.value, a.versionBase;
      return true;
    }

    /** Whatever happens to the file meanwhile, a returned token is one the uncached reader would
        return at some instant of this very call. */
    method Read(a: Answers, now: real, ghost t: Instants) returns (r: Outcome)
      requires Valid() && InOrder(world, t)
      requires Truthful(a, t, ObservedFile(a, t), ObservedBase(a))
      modifies this
      ensures Valid() && world == t.versionAgain && closed == old(closed)
      ensures r.Token? ==> UncachedDuring(t, r.token)
      ensures !old(closed) && a.files.Some? && a.connects && a.version.Some? && a.token.Some? && a.filesAgain.Some? && a.versionAgain.Some? ==> r.Token?
      ensures closed ==> r.Raised?
    {
      DuringOneCall(world, t, ObservedFile(a, t));
      if a.files.Some? {
        DuringOneCall(world, t, a.files.value.id);
      }
      MoveOn(t.versionAgain);
      if closed || a.files.None? {
        return Raised;
      }
      var files := a.files.value;
      if NeedsConnection(files) {
        var ok := Connect(files, a, t.open);
        if !ok {
          return Raised;
        }
      }
      r := Check(files, a, now, t);
    }

    /** What is remembered stands: less than a minute ago, for this file and this version. */
    predicate IsCached(files: Files, version: Option<int>, now: real)
      reads this
    {
      version.Some? && token.Some? && stamp == Some((files, version.value)) && now - checkedAt < 60.0
    }

    /** With the right connection open: answer from the cache, or ask the reader and remember what it
        said if nothing moved around it. */
    method Check(files: Files, a: Answers, now: real, ghost t: Instants) returns (r: Outcome)
      requires Valid() && connected && identity == Some(files.id) && t.stat.current == Some(files.id)
      requires a.version.Some? ==> a.version.value == base + t.version.commits(attached)
      requires a.token.Some? ==> UncachedToken(t.reader) == a.token
      requires a.versionAgain.Some? ==> a.versionAgain.value == base + t.versionAgain.commits(attached)
      requires t.stat.commits(attached) <= t.version.commits(attached) <= t.reader.commits(attached) <= t.versionAgain.commits(attached)
      requires world == t.versionAgain && (stamp.Some? ==> stamp.value.1 - base <= t.stat.commits(attached))
      requires a.filesAgain == Some(files) ==> attached == files.id && t.reader.current == Some(files.id)
      modifies this`stamp, this`token, this`checkedAt
      ensures Valid()
      ensures r.Token? ==> UncachedDuring(t, r.token)
      ensures a.version.Some? && a.token.Some? && a.filesAgain.Some? && a.versionAgain.Some? ==> r.Token?
      ensures old(IsCached(files, a.version, now)) ==> r.Token? && old(token) == Some(r.token) && unchanged(this)
      ensures !old(IsCached(files, a.version, now)) && r.Token? ==>
        && token == a.token == Some(r.token) && checkedAt == now
        && stamp == if a.version.Some? && a.filesAgain == Some(files) && a.versionAgain == a.version then Some((files, a.version.value)) else None
      ensures r.Raised? ==> stamp == None
    {
      if a.version.None? {
        stamp := None;
        return Raised;
      }
      var version := a.version.value;
      if token.Some? && stamp == Some((files, version)) && now - checkedAt < 60.0 {
        return Token(token.value);
      }
      if a.token.None? || a.filesAgain.None? || a.versionAgain.None? {
        stamp := None;
        return Raised;
      }
      token := a.token;
      stamp := if files == a.filesAgain.value && version == a.versionAgain.value then Some((files, version)) else None;
      checkedAt := now;
      return Token(a.token.value);
    }

    method Close()
      requires Valid()
      modifies this
      ensures Valid() && closed && !connected && world == old(world)
    {
      closed := true;
      Disconnect();
    }

    /** The environment moving on breaks nothing. */
    ghost method MoveOn(w: World)
      requires Valid() && Evolves(world, w)
      modifies this`world
      ensures Valid() && world == w
    {
      world := w;
    }
  }

  lemma {:induction false} ChainOrders(ws: seq<World>, i: nat, j: nat)
    requires Chain(ws) && i < j < |ws|
    ensures Evolves(ws[i], ws[j])
    decreases j
  {
    if i > 0 {
      ChainOrders(ws[1..], i - 1, j - 1);
    } else if j > 1 {
      ChainOrders(ws[1..], 0, j - 1);
      EvolvesTransitively(ws[0], ws[1], ws[j]);
    }
  }

  /** What one call may rely on about one file `id`. */
  lemma DuringOneCall(before: World, t: Instants, id: FileId)
    requires InOrder(before, t)
    ensures Evolves(before, t.versionAgain)
    ensures before.commits(id) <= t.stat.commits(id) <= t.version.commits(id) <= t.reader.commits(id) <= t.versionAgain.commits(id)
    ensures Gone(id, before) ==> t.stat.current != Some(id)
    ensures t.stat.current == Some(id) && t.open.current != Some(id) ==> Gone(id, t.versionAgain)
    ensures t.stat.current == t.statAgain.current == Some(id) ==> t.open.current == t.reader.current == Some(id)
  {
    var ws := [before, t.stat, t.open, t.version, t.reader, t.statAgain, t.versionAgain];
    ChainOrders(ws, 0, 1);
    ChainOrders(ws, 0, 6);
    ChainOrders(ws, 1, 3);
    ChainOrders(ws, 3, 4);
    ChainOrders(ws, 4, 6);
    ChainOrders(ws, 1, 2);
    ChainOrders(ws, 2, 6);
    ChainOrders(ws, 2, 5);
    ChainOrders(ws, 1, 4);
    ChainOrders(ws, 4, 5);
    EvolvesTransitively(ws[1], ws[2], ws[5]);
    EvolvesTransitively(ws[1], ws[4], ws[5]);
  }
}
