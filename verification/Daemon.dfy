/**
 The daemon's session table and request handling (src/daemon.rs). `Serve` says what one request does
 to the table and to the connection it came on; class `SessionTable` is the map the daemon changes in place.
 */
module Daemon {
  import opened Wrappers
  import opened Sequences
  import opened Utf8
  import opened Decimal
  import opened Protocol
  import opened Server

  /** `table` gives each listed session its name, if it has one. */
  datatype Registry = Registry(table: map<nat, Option<Str>>, nextId: nat)

  const EMPTY: Registry := Registry(map[], 0)

  predicate Named(table: map<nat, Option<Str>>, id: nat, name: Str) {
    id in table && table[id] == Some(name)
  }

  /** Ids are spent in order; names are never empty and never shared. */
  ghost predicate WellFormed(reg: Registry) {
    && reg.nextId <= U32_MAX
    && (forall id :: id in reg.table ==> id < reg.nextId)
    && (forall id :: id in reg.table ==> reg.table[id] != Some([]))
    && (forall i, j, name :: Named(reg.table, i, name) && Named(reg.table, j, name) ==> i == j)
  }

  function FromAscii(text: string): (s: Str)
    requires forall i :: 0 <= i < |text| ==> text[i] as int < 0x80
    ensures |s| == |text|
  {
    var s: seq<byte> := seq(|text|, i requires 0 <= i < |text| => text[i] as int);
    AsciiValid(s);
    s
  }

  const NO_SUCH_SESSION: Str := FromAscii("no such session: ")
  const NAME_TAKEN: Str := FromAscii("session name already exists: ")
  const UNEXPECTED: Str := FromAscii("unexpected frame type")

  function Complaint(about: Str, subject: Str): (f: Frame) {
    ValidConcat(about, subject);
    Error(about + subject)
  }

  function Reap(table: map<nat, Option<Str>>, finished: set<nat>): map<nat, Option<Str>> {
    map id | id in table && id !in finished :: table[id]
  }

  /** The possible answers of a lookup: a name wins over a number. */
  ghost predicate Resolves(table: map<nat, Option<Str>>, target: Str, answer: Option<nat>) {
    match answer
    case Some(id) =>
      || Named(table, id, target)
      || (id in table && Parse(target, U32_MAX) == Some(id) && forall j :: !Named(table, j, target))
    case None =>
      && (forall j :: !Named(table, j, target))
      && (match Parse(target, U32_MAX) case Some(id) => id !in table case None => true)
  }

  ghost function Resolve(table: map<nat, Option<Str>>, target: Str): (answer: Option<nat>)
    ensures Resolves(table, target, answer)
  {
    if id :| Named(table, id, target) then Some(id)
    else
      match Parse(target, U32_MAX)
      case Some(id) => if id in table then Some(id) else None
      case None => None
  }

  /** In a well-formed table a target means one session at most, so the map's iteration order is irrelevant. */
  lemma ResolutionUnique(reg: Registry, target: Str, a: Option<nat>)
    requires WellFormed(reg)
    ensures Resolves(reg.table, target, a) <==> a == Resolve(reg.table, target)
  {
  }

  /**
   What a target means, with numbers read place by place: the session of that name if there is one, else the listed
   session whose number it is. Text that is neither leads nowhere.
   */
  lemma TargetMeans(reg: Registry, target: Str, id: nat)
    requires WellFormed(reg)
    ensures Resolve(reg.table, target) == Some(id) <==>
      && id in reg.table
      && (reg.table[id] == Some(target) || (Numeral(target, id) && forall j :: !Named(reg.table, j, target)))
  {
    ResolutionUnique(reg, target, Some(id));
    ParseExact(target, U32_MAX, id);
    hide Resolve, Numeral, Parse;
  }

  lemma UnknownTarget(reg: Registry, target: Str)
    requires WellFormed(reg)
    ensures Resolve(reg.table, target) == None <==>
      forall id :: id in reg.table ==> reg.table[id] != Some(target) && !Numeral(target, id)
  {
    forall id | id in reg.table
      ensures Named(reg.table, id, target) || Numeral(target, id) ==> Resolve(reg.table, target) != None
    {
      TargetMeans(reg, target, id);
      ParseExact(target, U32_MAX, id);
      hide Numeral, Parse;
    }
    if Resolve(reg.table, target).Some? {
      TargetMeans(reg, target, Resolve(reg.table, target).value);
    }
    hide Resolve, Numeral;
  }

  /**
   A session's own number leads to that session, or nowhere once it is gone, exactly when no other
   session is named by the numeral.
   */
  lemma NumeralResolves(reg: Registry, id: nat)
    requires WellFormed(reg) && id < reg.nextId
    ensures Resolve(reg.table, Print(id)) == (if id in reg.table then Some(id) else None)
       <==> forall j :: Named(reg.table, j, Print(id)) ==> j == id
  {
    ParsePrint(id, U32_MAX);
    ResolutionUnique(reg, Print(id), if id in reg.table then Some(id) else None);
  }

  // ----- Listing -----

  function Entry(id: nat, name: Option<Str>, meta: Option<Metadata>): SessionEntry {
    var shown := match name case Some(n) => n case None => [];
    match meta
    case Some(m) => SessionEntry(Print(id), shown, m.ptyPath, m.shellPid, m.createdAt, m.attached, m.lastHeartbeat)
    case None => SessionEntry(Print(id), shown, [], 0, 0, false, 0)
  }

  type Metas = map<nat, Option<Metadata>>

  function MetaOf(metas: Metas, id: nat): Option<Metadata> {
    if id in metas then metas[id] else None
  }

  function EntriesFor(ids: seq<nat>, table: map<nat, Option<Str>>, metas: Metas): (entries: seq<SessionEntry>)
    requires forall id :: id in ids ==> id in table
    ensures |entries| == |ids|
    ensures forall k :: 0 <= k < |ids| ==> entries[k] == Entry(ids[k], table[ids[k]], MetaOf(metas, ids[k]))
  {
    seq(|ids|, k requires 0 <= k < |ids| => Entry(ids[k], table[ids[k]], MetaOf(metas, ids[k])))
  }

  predicate Increasing(ids: seq<nat>) {
    forall i, j :: 0 <= i < j < |ids| ==> ids[i] < ids[j]
  }

  /** The listed ids below `n` in order. */
  function IdsBelow(table: map<nat, Option<Str>>, n: nat): (ids: seq<nat>)
    ensures Increasing(ids)
    ensures forall id :: id in ids <==> id in table && id < n
  {
    if n == 0 then []
    else
      var ids := IdsBelow(table, n - 1);
      assert forall i :: 0 <= i < |ids| ==> ids[i] in ids;
      ids + if n - 1 in table then [n - 1] else []
  }

  function Listing(reg: Registry, metas: Metas): seq<SessionEntry> {
    EntriesFor(IdsBelow(reg.table, reg.nextId), reg.table, metas)
  }

  /** `sort_by_key` on the parsed id; a stable sort. */
  function Key(e: SessionEntry): nat {
    match Parse(e.id, U32_MAX)
    case Some(n) => n
    case None => U32_MAX
  }

  function Insert(e: SessionEntry, sorted: seq<SessionEntry>): seq<SessionEntry> {
    if sorted == [] || Key(e) <= Key(sorted[0]) then [e] + sorted else [sorted[0]] + Insert(e, sorted[1..])
  }

  function SortByKey(entries: seq<SessionEntry>): seq<SessionEntry> {
    if entries == [] then [] else Insert(entries[0], SortByKey(entries[1..]))
  }

  function InsertId(id: nat, sorted: seq<nat>): (r: seq<nat>)
    ensures forall x :: x in r <==> x == id || x in sorted
    ensures Increasing(sorted) && id !in sorted ==> Increasing(r)
  {
    if sorted == [] || id <= sorted[0] then [id] + sorted
    else
      var rest := InsertId(id, sorted[1..]);
      HeadOrTail(sorted);
      assert forall i :: 0 <= i < |rest| ==> rest[i] in rest;
      [sorted[0]] + rest
  }

  predicate Distinct(ids: seq<nat>) {
    forall i, j :: 0 <= i < j < |ids| ==> ids[i] != ids[j]
  }

  function SortIds(ids: seq<nat>): (r: seq<nat>)
    ensures forall x :: x in r <==> x in ids
    ensures Distinct(ids) ==> Increasing(r)
  {
    if ids == [] then []
    else
      HeadOrTail(ids);
      InsertId(ids[0], SortIds(ids[1..]))
  }

  lemma EntriesCons(id: nat, rest: seq<nat>, table: map<nat, Option<Str>>, metas: Metas)
    requires id in table && forall x :: x in rest ==> x in table
    ensures EntriesFor([id] + rest, table, metas)
         == [Entry(id, table[id], MetaOf(metas, id))] + EntriesFor(rest, table, metas)
  {
  }

  lemma KeyOfEntry(id: nat, name: Option<Str>, meta: Option<Metadata>)
    requires id <= U32_MAX
    ensures Key(Entry(id, name, meta)) == id
  {
    ParsePrint(id, U32_MAX);
  }

  lemma {:induction false} InsertEntries(id: nat, sorted: seq<nat>, table: map<nat, Option<Str>>, metas: Metas)
    requires id in table && id <= U32_MAX
    requires forall x :: x in sorted ==> x in table && x <= U32_MAX
    ensures Insert(Entry(id, table[id], MetaOf(metas, id)), EntriesFor(sorted, table, metas))
         == EntriesFor(InsertId(id, sorted), table, metas)
    decreases |sorted|
  {
    hide Entry, Key;
    KeyOfEntry(id, table[id], MetaOf(metas, id));
    EntriesCons(id, sorted, table, metas);
    if sorted == [] {
    } else {
      assert sorted[0] in sorted && sorted == [sorted[0]] + sorted[1..];
      KeyOfEntry(sorted[0], table[sorted[0]], MetaOf(metas, sorted[0]));
      EntriesCons(sorted[0], sorted[1..], table, metas);
      InsertEntries(id, sorted[1..], table, metas);
      EntriesCons(sorted[0], InsertId(id, sorted[1..]), table, metas);
    }
  }

  lemma {:induction false} SortEntries(ids: seq<nat>, table: map<nat, Option<Str>>, metas: Metas)
    requires forall x :: x in ids ==> x in table && x <= U32_MAX
    ensures SortByKey(EntriesFor(ids, table, metas)) == EntriesFor(SortIds(ids), table, metas)
    decreases |ids|
  {
    if ids == [] {
    } else {
      assert EntriesFor(ids, table, metas)[1..] == EntriesFor(ids[1..], table, metas);
      SortEntries(ids[1..], table, metas);
      InsertEntries(ids[0], SortIds(ids[1..]), table, metas);
    }
  }

  predicate SameElements(a: seq<nat>, b: seq<nat>) {
    (forall x :: x in a ==> x in b) && (forall x :: x in b ==> x in a)
  }

  lemma LastIsLargest(a: seq<nat>, x: nat)
    requires Increasing(a) && x in a
    ensures x <= a[|a| - 1]
    ensures x != a[|a| - 1] <==> x in a[..|a| - 1]
  {
  }

  lemma DropLast(a: seq<nat>, b: seq<nat>)
    requires Increasing(a) && Increasing(b) && SameElements(a, b) && a != [] && b != []
    ensures a[|a| - 1] == b[|b| - 1] && SameElements(a[..|a| - 1], b[..|b| - 1])
  {
    assert a[|a| - 1] in a && b[|b| - 1] in b;
    LastIsLargest(a, b[|b| - 1]);
    LastIsLargest(b, a[|a| - 1]);
    hide Increasing;
    var p, q := a[..|a| - 1], b[..|b| - 1];
    forall x | x in p ensures x in q {
      assert x in a;
      LastIsLargest(a, x);
      LastIsLargest(b, x);
    }
    forall x | x in q ensures x in p {
      assert x in b;
      LastIsLargest(a, x);
      LastIsLargest(b, x);
    }
  }

  lemma {:induction false} IncreasingUnique(a: seq<nat>, b: seq<nat>)
    requires Increasing(a) && Increasing(b) && SameElements(a, b)
    ensures a == b
    decreases |a|
  {
    assert a != [] ==> a[0] in a;
    assert b != [] ==> b[0] in b;
    if a != [] && b != [] {
      DropLast(a, b);
      IncreasingUnique(a[..|a| - 1], b[..|b| - 1]);
      TakeNext(a, |a| - 1);
      TakeNext(b, |b| - 1);
    }
  }

  /** Whatever order the map is walked in, sorting by parsed id gives the one listing in id order. */
  lemma SortedListing(reg: Registry, metas: Metas, order: seq<nat>)
    requires WellFormed(reg) && Distinct(order) && forall id :: id in order <==> id in reg.table
    ensures SortByKey(EntriesFor(order, reg.table, metas)) == Listing(reg, metas)
  {
    SortEntries(order, reg.table, metas);
    IncreasingUnique(SortIds(order), IdsBelow(reg.table, reg.nextId));
  }

  // ----- Requests -----

  /** What the daemon sees of its sessions when a request is handled. */
  datatype Sight = Sight(finished: set<nat>, closed: set<nat>, metas: Metas)

  /** The answer on the connection, the session it is handed to, the sessions aborted, and whether the daemon stops. */
  datatype Outcome = Outcome(reply: Frame, handTo: Option<nat>, aborted: set<nat>, stop: bool)

  function Refuse(f: Frame): Outcome {
    Outcome(f, None, {}, false)
  }

  ghost predicate Taken(table: map<nat, Option<Str>>, name: Str) {
    exists id :: Named(table, id, name)
  }

  ghost function Serve(reg: Registry, request: Frame, sight: Sight): (Registry, Outcome) {
    var reaped := reg.(table := Reap(reg.table, sight.finished));
    match request
    case NewSession(name) =>
      if name != [] && Taken(reg.table, name) then (reg, Refuse(Complaint(NAME_TAKEN, name)))
      else
        var id := reg.nextId;
        (Registry(reg.table[id := if name == [] then None else Some(name)], id + 1),
         Outcome(SessionCreated(Print(id)), Some(id), {}, false))
    case Attach(session) =>
      (match Resolve(reaped.table, session)
       case None => (reaped, Refuse(Complaint(NO_SUCH_SESSION, session)))
       case Some(id) =>
         if id in sight.closed then
           (reaped.(table := Reap(reaped.table, {id})), Refuse(Complaint(NO_SUCH_SESSION, session)))
         else (reaped, Outcome(Ok, Some(id), {}, false)))
    case ListSessions => (reaped, Refuse(SessionInfo(Listing(reaped, sight.metas))))
    case KillSession(session) =>
      (match Resolve(reaped.table, session)
       case None => (reaped, Refuse(Complaint(NO_SUCH_SESSION, session)))
       case Some(id) => (reaped.(table := Reap(reaped.table, {id})), Outcome(Ok, None, {id}, false)))
    case KillServer => (reg.(table := map[]), Outcome(Ok, None, reg.table.Keys, true))
    case _ => (reg, Refuse(Error(UNEXPECTED)))
  }

  lemma ReapedWellFormed(reg: Registry, finished: set<nat>)
    requires WellFormed(reg)
    ensures WellFormed(reg.(table := Reap(reg.table, finished)))
  {
    var table := Reap(reg.table, finished);
    assert forall id, name :: Named(table, id, name) ==> Named(reg.table, id, name);
  }

  lemma EmptyWellFormed(reg: Registry)
    requires WellFormed(reg)
    ensures WellFormed(reg.(table := map[]))
  {
  }

  lemma CreatedWellFormed(reg: Registry, name: Str)
    requires WellFormed(reg) && reg.nextId < U32_MAX && (name == [] || !Taken(reg.table, name))
    ensures WellFormed(Registry(reg.table[reg.nextId := if name == [] then None else Some(name)], reg.nextId + 1))
  {
    var table := reg.table[reg.nextId := if name == [] then None else Some(name)];
    forall id, n | Named(table, id, n)
      ensures if id == reg.nextId then n == name && name != [] else Named(reg.table, id, n)
    {}
  }

  /** Every request keeps the table well-formed, as long as ids fit 32 bits. */
  lemma ServeKeepsWellFormed(reg: Registry, request: Frame, sight: Sight)
    requires WellFormed(reg) && (request.NewSession? ==> reg.nextId < U32_MAX)
    ensures WellFormed(Serve(reg, request, sight).0)
  {
    hide WellFormed, Resolve, Resolves, Reap, Taken, Listing, Complaint, Valid, FromAscii, Print;
    var reaped := reg.(table := Reap(reg.table, sight.finished));
    ReapedWellFormed(reg, sight.finished);
    EmptyWellFormed(reg);
    match request {
      case NewSession(name) =>
        if name == [] || !Taken(reg.table, name) {
          CreatedWellFormed(reg, name);
        }
      case Attach(session) =>
        if Resolve(reaped.table, session).Some? {
          ReapedWellFormed(reaped, {Resolve(reaped.table, session).value});
        }
      case KillSession(session) =>
        if Resolve(reaped.table, session).Some? {
          ReapedWellFormed(reaped, {Resolve(reaped.table, session).value});
        }
      case _ =>
    }
  }

  lemma ReapLeaves(table: map<nat, Option<Str>>, finished: set<nat>)
    ensures forall id :: id in Reap(table, finished) <==> id in table && id !in finished
    ensures forall id :: id in Reap(table, finished) ==> Reap(table, finished)[id] == table[id]
  {
  }

  lemma ResolvedListed(table: map<nat, Option<Str>>, target: Str)
    ensures Resolve(table, target).Some? ==> Resolve(table, target).value in table
  {
  }

  /** No id comes back, no session is renamed, and the counter stays above every id. */
  ghost predicate KeepsIdentity(reg: Registry, after: Registry) {
    && (forall id :: id in after.table && id < reg.nextId ==> id in reg.table && after.table[id] == reg.table[id])
    && (forall id :: id in after.table ==> id < after.nextId)
    && reg.nextId <= after.nextId
  }

  lemma SelfKeepsIdentity(reg: Registry)
    requires WellFormed(reg)
    ensures KeepsIdentity(reg, reg) && KeepsIdentity(reg, reg.(table := map[]))
  {
  }

  lemma ReapKeepsIdentity(reg: Registry, finished: set<nat>)
    requires KeepsIdentity(reg, reg)
    ensures KeepsIdentity(reg, reg.(table := Reap(reg.table, finished)))
  {
    ReapLeaves(reg.table, finished);
    hide Reap;
  }

  lemma ReapTwice(reg: Registry, finished: set<nat>, more: set<nat>)
    requires KeepsIdentity(reg, reg)
    ensures KeepsIdentity(reg, reg.(table := Reap(Reap(reg.table, finished), more)))
  {
    ReapLeaves(reg.table, finished);
    ReapLeaves(Reap(reg.table, finished), more);
    hide Reap;
  }

  lemma CreateKeepsIdentity(reg: Registry, name: Option<Str>)
    requires KeepsIdentity(reg, reg)
    ensures KeepsIdentity(reg, Registry(reg.table[reg.nextId := name], reg.nextId + 1))
  {
  }

  /** A request never brings an id back and never renames a session. */
  lemma ServeKeepsIdentity(reg: Registry, request: Frame, sight: Sight)
    requires WellFormed(reg)
    ensures KeepsIdentity(reg, Serve(reg, request, sight).0)
  {
    hide KeepsIdentity, WellFormed, Resolve, Listing, Taken, Reap, Complaint, Resolves, Valid, FromAscii, Print, Named;
    var reaped := Reap(reg.table, sight.finished);
    SelfKeepsIdentity(reg);
    ReapKeepsIdentity(reg, sight.finished);
    if request.NewSession? {
      CreateKeepsIdentity(reg, if request.name == [] then None else Some(request.name));
    } else if request.Attach? || request.KillSession? {
      var found := Resolve(reaped, request.session);
      if found.Some? {
        ReapTwice(reg, sight.finished, {found.value});
      }
    }
  }

  /** Ids are issued one at a time, and only a listed session is handed a connection. */
  lemma ServeIssues(reg: Registry, request: Frame, sight: Sight)
    ensures
      var (after, outcome) := Serve(reg, request, sight);
      && after.nextId == reg.nextId + (if outcome.reply.SessionCreated? then 1 else 0)
      && (outcome.reply.SessionCreated? ==> outcome.reply.id == Print(reg.nextId) && outcome.handTo == Some(reg.nextId))
      && (outcome.handTo.Some? ==> outcome.handTo.value in after.table && outcome.aborted == {} && !outcome.stop)
  {
    hide Listing, Taken, WellFormed, Reap, Resolve, Resolves, FromAscii, Print, Valid;
    if request.Attach? {
      ResolvedListed(Reap(reg.table, sight.finished), request.session);
    }
  }

  lemma ReapedResolution(reg: Registry, finished: set<nat>, target: Str, answer: Option<nat>)
    requires WellFormed(reg) && Resolves(Reap(reg.table, finished), target, answer)
    ensures answer == Resolve(Reap(reg.table, finished), target)
  {
    ReapedWellFormed(reg, finished);
    ResolutionUnique(reg.(table := Reap(reg.table, finished)), target, answer);
  }

  lemma TargetTable(reg: Registry, request: Frame, target: Str, sight: Sight, id: nat)
    requires WellFormed(reg) && (request == Attach(target) || request == KillSession(target))
    ensures
      var live := Reap(reg.table, sight.finished);
      id in Serve(reg, request, sight).0.table <==>
        id in live && !(Resolves(live, target, Some(id)) && (request.Attach? ==> id in sight.closed))
  {
    hide Resolve, Resolves, Reap, WellFormed, Complaint, Valid, FromAscii, Print, Listing, Taken;
    var live := Reap(reg.table, sight.finished);
    if Resolves(live, target, Some(id)) {
      ReapedResolution(reg, sight.finished, target, Some(id));
    }
    var found := Resolve(live, target);
    ReapLeaves(live, {if found.Some? then found.value else 0});
  }

  /** Who is listed after a request: only requests about sessions reap, and besides goes only what they name. */
  lemma TableExactly(reg: Registry, request: Frame, sight: Sight, id: nat)
    requires WellFormed(reg)
    ensures
      var live := Reap(reg.table, sight.finished);
      id in Serve(reg, request, sight).0.table <==>
        match request
        case NewSession(name) =>
          id in reg.table || (id == reg.nextId && (name == [] || forall j :: !Named(reg.table, j, name)))
        case Attach(target) => id in live && !(Resolves(live, target, Some(id)) && id in sight.closed)
        case ListSessions => id in live
        case KillSession(target) => id in live && !Resolves(live, target, Some(id))
        case KillServer => false
        case _ => id in reg.table
    ensures id in Reap(reg.table, sight.finished) <==> id in reg.table && id !in sight.finished
    ensures request.NewSession? && id == reg.nextId && id in Serve(reg, request, sight).0.table ==>
      Serve(reg, request, sight).0.table[id] == if request.name == [] then None else Some(request.name)
  {
    ReapLeaves(reg.table, sight.finished);
    match request {
      case Attach(target) => TargetTable(reg, request, target, sight, id);
      case KillSession(target) => TargetTable(reg, request, target, sight, id);
      case _ =>
    }
    hide Resolve, Resolves, Reap, WellFormed, Complaint, Valid, FromAscii, Listing, Print;
  }

  lemma OnlyNamed(reg: Registry, target: Str, id: nat)
    requires WellFormed(reg) && Resolve(reg.table, target) == Some(id)
    ensures !Taken(Reap(reg.table, {id}), target)
  {
    TargetMeans(reg, target, id);
    ReapLeaves(reg.table, {id});
    forall j ensures !Named(Reap(reg.table, {id}), j, target) {
      assert Named(reg.table, j, target) ==> j == id;
    }
    hide Reap, Resolve, Numeral, WellFormed;
  }

  /** Whoever is refused a session by name can have the name: the very next request to create it is granted. */
  lemma RefusedNameIsFree(reg: Registry, target: Str, sight: Sight, later: Sight)
    requires WellFormed(reg) && Serve(reg, Attach(target), sight).1.reply.Error?
    ensures Serve(Serve(reg, Attach(target), sight).0, NewSession(target), later).1.reply.SessionCreated?
  {
    var reaped := reg.(table := Reap(reg.table, sight.finished));
    ReapedWellFormed(reg, sight.finished);
    hide WellFormed, Reap, Resolves, Listing, Valid, FromAscii, Print;
    var found := Resolve(reaped.table, target);
    if found.Some? {
      OnlyNamed(reaped, target, found.value);
    } else {
      assert !Taken(reaped.table, target) by {
        UnknownTarget(reaped, target);
      }
    }
    hide Resolve, Taken;
  }

  lemma RemoveOne(table: map<nat, Option<Str>>, id: nat)
    ensures table - {id} == Reap(table, {id})
  {
  }

  lemma UnexpectedServed(reg: Registry, request: Frame, sight: Sight)
    requires !request.NewSession? && !request.Attach? && !request.ListSessions?
    requires !request.KillSession? && !request.KillServer?
    ensures Serve(reg, request, sight) == (reg, Refuse(Error(UNEXPECTED)))
  {
    hide Reap, Resolve, Resolves, Listing, Taken, Complaint, Valid, FromAscii, Print;
  }

  class SessionTable {
    var sessions: map<nat, Option<Str>>
    var nextId: nat

    constructor ()
      ensures View() == EMPTY
    {
      sessions, nextId := map[], 0;
    }

    function View(): Registry
      reads this
    {
      Registry(sessions, nextId)
    }

    /** `retain`, visiting the entries in any order. */
    method ReapSessions(finished: set<nat>)
      modifies this`sessions
      ensures sessions == Reap(old(sessions), finished)
    {
      var rest := sessions.Keys;
      while rest != {}
        invariant rest <= old(sessions).Keys
        invariant sessions == Reap(old(sessions), finished - rest)
        decreases |rest|
      {
        var id :| id in rest;
        if id in finished {
          sessions := sessions - {id};
        }
        rest := rest - {id};
      }
      assert finished - rest == finished;
    }

    /** Searches names in any order, then tries the target as a number. */
    method ResolveSession(target: Str) returns (answer: Option<nat>)
      ensures Resolves(sessions, target, answer)
    {
      var rest := sessions.Keys;
      while rest != {}
        invariant forall id :: id in sessions && id !in rest ==> sessions[id] != Some(target)
        invariant rest <= sessions.Keys
        decreases |rest|
      {
        var id :| id in rest;
        if sessions[id] == Some(target) {
          return Some(id);
        }
        rest := rest - {id};
      }
      match Parse(target, U32_MAX) {
        case Some(id) =>
          if id in sessions {
            return Some(id);
          }
        case None =>
      }
      return None;
    }

    /** Attaching and killing both reap first and then look the session up. */
    method FindLive(target: Str, finished: set<nat>) returns (answer: Option<nat>)
      requires WellFormed(View())
      modifies this`sessions
      ensures sessions == Reap(old(sessions), finished) && answer == Resolve(sessions, target)
    {
      ReapSessions(finished);
      answer := ResolveSession(target);
      ReapedResolution(old(View()), finished, target, answer);
    }

    method Remove(id: nat)
      modifies this`sessions
      ensures sessions == Reap(old(sessions), {id})
    {
      RemoveOne(sessions, id);
      sessions := sessions - {id};
    }

    method BuildSessionEntries(metas: Metas) returns (entries: seq<SessionEntry>)
      requires WellFormed(View())
      ensures entries == Listing(View(), metas)
    {
      var rest := sessions.Keys;
      ghost var order: seq<nat> := [];
      entries := [];
      while rest != {}
        invariant rest <= sessions.Keys && Distinct(order)
        invariant forall id :: id in order <==> id in sessions && id !in rest
        invariant entries == EntriesFor(order, sessions, metas)
        decreases |rest|
      {
        var id :| id in rest;
        entries := entries + [Entry(id, sessions[id], MetaOf(metas, id))];
        order := order + [id];
        rest := rest - {id};
      }
      SortedListing(View(), metas, order);
      entries := SortByKey(entries);
    }

    /** `drain`: every session is aborted and the table is empty. */
    method Shutdown() returns (aborted: set<nat>)
      modifies this`sessions
      ensures sessions == map[] && aborted == old(sessions.Keys)
    {
      aborted := {};
      while sessions != map[]
        invariant aborted + sessions.Keys == old(sessions.Keys)
        decreases |sessions|
      {
        var id :| id in sessions;
        aborted := aborted + {id};
        var left := sessions - {id};
        assert left.Keys == sessions.Keys - {id};
        sessions := left;
      }
    }

    method NameTaken(name: Str) returns (taken: bool)
      ensures taken <==> Taken(sessions, name)
    {
      var rest := sessions.Keys;
      while rest != {}
        invariant forall id :: id in sessions && id !in rest ==> sessions[id] != Some(name)
        invariant rest <= sessions.Keys
        decreases |rest|
      {
        var id :| id in rest;
        if sessions[id] == Some(name) {
          assert Named(sessions, id, name);
          return true;
        }
        rest := rest - {id};
      }
      return false;
    }

    // The arms of the request match.

    method Create(name: Str, ghost sight: Sight) returns (outcome: Outcome)
      modifies this
      ensures (View(), outcome) == Serve(old(View()), NewSession(name), sight)
    {
      hide Reap, Resolve, Resolves, Listing, Taken, Named, Complaint, Valid, FromAscii, Print, Parse;
      if name != [] {
        var dup := NameTaken(name);
        if dup {
          return Refuse(Complaint(NAME_TAKEN, name));
        }
      }
      var id := nextId;
      nextId := nextId + 1;
      sessions := sessions[id := if name == [] then None else Some(name)];
      outcome := Outcome(SessionCreated(Print(id)), Some(id), {}, false);
    }

    method AttachTo(session: Str, sight: Sight) returns (outcome: Outcome)
      requires WellFormed(View())
      modifies this`sessions
      ensures (View(), outcome) == Serve(old(View()), Attach(session), sight)
    {
      hide WellFormed, Reap, Resolve, Resolves, Listing, Taken, Named, Complaint, Valid, FromAscii, Print, Parse;
      var found := FindLive(session, sight.finished);
      match found {
        case None => outcome := Refuse(Complaint(NO_SUCH_SESSION, session));
        case Some(id) =>
          if id in sight.closed {
            Remove(id);
            outcome := Refuse(Complaint(NO_SUCH_SESSION, session));
          } else {
            outcome := Outcome(Ok, Some(id), {}, false);
          }
      }
    }

    method Kill(session: Str, sight: Sight) returns (outcome: Outcome)
      requires WellFormed(View())
      modifies this`sessions
      ensures (View(), outcome) == Serve(old(View()), KillSession(session), sight)
    {
      hide WellFormed, Reap, Resolve, Resolves, Listing, Taken, Named, Complaint, Valid, FromAscii, Print, Parse;
      var found := FindLive(session, sight.finished);
      match found {
        case None => outcome := Refuse(Complaint(NO_SUCH_SESSION, session));
        case Some(id) =>
          Remove(id);
          outcome := Outcome(Ok, None, {id}, false);
      }
    }

    method List(sight: Sight) returns (outcome: Outcome)
      requires WellFormed(View())
      modifies this`sessions
      ensures (View(), outcome) == Serve(old(View()), ListSessions, sight)
    {
      hide WellFormed, Reap, Resolve, Resolves, Listing, Taken, Named, Complaint, Valid, FromAscii, Print, Parse;
      ReapSessions(sight.finished);
      ReapedWellFormed(old(View()), sight.finished);
      var entries := BuildSessionEntries(sight.metas);
      outcome := Refuse(SessionInfo(entries));
    }

    method Stop(ghost sight: Sight) returns (outcome: Outcome)
      modifies this`sessions
      ensures (View(), outcome) == Serve(old(View()), KillServer, sight)
    {
      hide Reap, Resolve, Resolves, Listing, Taken, Named, Complaint, Valid, FromAscii, Print, Parse;
      var aborted := Shutdown();
      outcome := Outcome(Ok, None, aborted, true);
    }

    /** One control request. */
    method HandleRequest(request: Frame, sight: Sight) returns (outcome: Outcome)
      requires WellFormed(View()) && (request.NewSession? ==> nextId < U32_MAX)
      modifies this
      ensures (View(), outcome) == Serve(old(View()), request, sight)
      ensures WellFormed(View())
    {
      hide WellFormed, Serve, FromAscii, Valid, Print;
      ServeKeepsWellFormed(View(), request, sight);
      match request {
        case NewSession(name) => outcome := Create(name, sight);
        case Attach(session) => outcome := AttachTo(session, sight);
        case ListSessions => outcome := List(sight);
        case KillSession(session) => outcome := Kill(session, sight);
        case KillServer => outcome := Stop(sight);
        case _ =>
          UnexpectedServed(View(), request, sight);
          outcome := Refuse(Error(UNEXPECTED));
      }
    }
  }

  lemma ResolvesNamed(reg: Registry, name: Str, id: nat)
    requires WellFormed(reg) && Named(reg.table, id, name)
    ensures Resolve(reg.table, name) == Some(id)
  {
    ResolutionUnique(reg, name, Some(id));
    hide Resolve;
  }

  lemma CreateServed(reg: Registry, name: Str, sight: Sight)
    requires name == [] || !Taken(reg.table, name)
    ensures Serve(reg, NewSession(name), sight)
         == (Registry(reg.table[reg.nextId := if name == [] then None else Some(name)], reg.nextId + 1),
             Outcome(SessionCreated(Print(reg.nextId)), Some(reg.nextId), {}, false))
  {
    hide Taken, Listing, Resolve, Resolves, Reap, Complaint, Valid, FromAscii, Print;
  }

  lemma ShadowTables(name: Str)
    requires name != []
    ensures !Taken(map[0 := None], name) && Named(map[0 := None, 1 := Some(name)], 1, name)
    ensures WellFormed(Registry(map[0 := None, 1 := Some(name)], 2))
  {
    hide Valid;
  }

  /** A session can be shadowed: name the second session "0" and the first session's number leads to it. */
  lemma NumeralNameShadows(sight: Sight)
    ensures
      var (reg, first) := Serve(EMPTY, NewSession([]), sight);
      var (after, second) := Serve(reg, NewSession(Print(0)), sight);
      && first.reply == SessionCreated(Print(0)) && second.reply == SessionCreated(Print(1))
      && 0 in after.table && Resolve(after.table, Print(0)) == Some(1)
  {
    hide Serve, Resolve, Resolves, WellFormed, Taken, Named, FromAscii, Print;
    var reg, after := Registry(map[0 := None], 1), Registry(map[0 := None, 1 := Some(Print(0))], 2);
    ShadowTables(Print(0));
    CreateServed(EMPTY, [], sight);
    CreateServed(reg, Print(0), sight);
    ResolvesNamed(after, Print(0), 1);
  }
}
