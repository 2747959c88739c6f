/** A voting session: clients share one document, change it by atomic updates, and react to its snapshots. */
module Votings {
  datatype Uid = Uid(id: string)
  type Name = string

  datatype Doc = Doc(participants: int, live: bool, finished: bool, likes: map<Uid, seq<Name>>, result: Name, finishedPushing: int)

  // A state of the document, and who has pushed a list into it by then.
  datatype Version = Version(doc: Doc, pushers: set<Uid>)

  // Updates a client has sent that the server has not yet applied.
  datatype Write = Push(list: seq<Name>) | Result(name: Name)

  // One client; `sent` is the list it pushed and `seen` the latest version it has been shown.
  datatype Store = Store(joined: bool, created: bool, pushed: bool, liked: seq<Name>, sent: seq<Name>, result: Name, outbox: seq<Write>, seen: nat)

  datatype State = State(versions: seq<Version>, stores: map<Uid, Store>)

  // ----- Updates of the document -----

  function JoinDoc(d: Doc, u: Uid): Doc { d.(participants := d.participants + 1, likes := d.likes[u := []]) }

  function LeaveDoc(d: Doc, u: Uid): Doc { d.(participants := d.participants - 1, likes := d.likes - {u}) }

  function Apply(v: Version, u: Uid, w: Write): Version {
    match w
    case Push(list) => Version(v.doc.(likes := v.doc.likes[u := list], finishedPushing := v.doc.finishedPushing + 1), v.pushers + {u})
    case Result(name) => v.(doc := v.doc.(result := name))
  }

  // What a client sees: a version, with its own updates on top.
  function View(v: Version, u: Uid, outbox: seq<Write>): Version
    decreases |outbox|
  {
    if outbox == [] then v else View(Apply(v, u, outbox[0]), u, outbox[1..])
  }

  // ----- What a client does -----

  // The names all lists share.
  function Common(likes: map<Uid, seq<Name>>): set<Name> {
    set u, name | u in likes && name in likes[u] && (forall w :: w in likes ==> name in likes[w]) :: name
  }

  // Any of them may be chosen.
  predicate Picks(likes: map<Uid, seq<Name>>, name: Name) {
    if Common(likes) == {} then name == "Error" else name in Common(likes)
  }

  function Pushing(st: Store): Store {
    if st.pushed then st else st.(pushed := true, sent := st.liked, outbox := st.outbox + [Push(st.liked)])
  }

  predicate Calculates(st: Store, d: Doc) { d.finishedPushing == d.participants && st.created && st.result == "" }

  // The snapshot listener.
  predicate Reacts(st: Store, d: Doc, st': Store) {
    var shown := if d.result != "" then st.(result := d.result) else st;
    var after := if d.finished then Pushing(shown) else shown;
    if Calculates(after, d) then
      st'.outbox != [] && st'.outbox[|st'.outbox| - 1].Result? && Picks(d.likes, st'.outbox[|st'.outbox| - 1].name)
      && st' == after.(outbox := after.outbox + [st'.outbox[|st'.outbox| - 1]])
    else
      st' == after
  }

  // ----- Steps and runs -----

  datatype Step =
    | Join(u: Uid) | Leave(u: Uid) | Start | End
    | Like(u: Uid, name: Name) | Snapshot(u: Uid, k: nat) | Deliver(u: Uid)

  function Latest(s: State): Version
    requires s.versions != []
  {
    s.versions[|s.versions| - 1]
  }

  ghost predicate Next(s: State, step: Step, s': State)
    requires s.versions != []
  {
    var latest := Latest(s);
    match step
    case Join(u) =>
      && u in s.stores && !s.stores[u].joined && !latest.doc.finished
      && s' == State(s.versions + [latest.(doc := JoinDoc(latest.doc, u))], s.stores[u := s.stores[u].(joined := true, seen := |s.versions|)])
    case Leave(u) =>
      && u in s.stores && s.stores[u].joined && !latest.doc.finished
      && s' == State(s.versions + [latest.(doc := LeaveDoc(latest.doc, u))], s.stores[u := s.stores[u].(joined := false)])
    case Start => s' == s.(versions := s.versions + [latest.(doc := latest.doc.(live := true))])
    case End => s' == s.(versions := s.versions + [latest.(doc := latest.doc.(live := false, finished := true))])
    case Like(u, name) =>
      u in s.stores && s' == s.(stores := s.stores[u := s.stores[u].(liked := s.stores[u].liked + [name])])
    case Snapshot(u, k) =>
      && u in s.stores && s.stores[u].joined && s.stores[u].seen <= k < |s.versions|
      && u in s'.stores && Reacts(s.stores[u].(seen := k), View(s.versions[k], u, s.stores[u].outbox).doc, s'.stores[u])
      && s' == s.(stores := s.stores[u := s'.stores[u]])
    case Deliver(u) =>
      && u in s.stores && s.stores[u].outbox != []
      && s' == State(s.versions + [Apply(latest, u, s.stores[u].outbox[0])], s.stores[u := s.stores[u].(outbox := s.stores[u].outbox[1..], seen := |s.versions|)])
  }

  // createSession, by the one client that has created a session
  ghost predicate Init(s: State) {
    exists c: Uid :: Creates(s, c)
  }

  ghost predicate Creates(s: State, c: Uid) {
    && s.versions == [Version(Doc(1, false, false, map[c := []], "", 0), {})]
    && c in s.stores
    && forall u :: u in s.stores ==> s.stores[u].joined == (u == c) && !s.stores[u].pushed && s.stores[u].outbox == [] && s.stores[u].seen == 0
  }

  ghost predicate Run(run: seq<State>, steps: seq<Step>) {
    && |run| == |steps| + 1 && Init(run[0])
    && (forall i :: 0 <= i < |run| ==> run[i].versions != [])
    && forall i :: 0 <= i < |steps| ==> Next(run[i], steps[i], run[i + 1])
  }

  // ----- The invariant -----

  predicate Everyone(v: Version) { v.pushers == v.doc.likes.Keys }

  predicate LikedByAll(likes: map<Uid, seq<Name>>, name: Name) { name == "Error" || forall u :: u in likes ==> name in likes[u] }

  // A result to publish: everyone has pushed, and it is one of the names all lists share.
  predicate GoodResult(v: Version, name: Name) { v.doc.finished && Everyone(v) && Picks(v.doc.likes, name) }

  ghost predicate VersionOk(v: Version) {
    && v.doc.participants == |v.doc.likes| && v.doc.finishedPushing == |v.pushers|
    && v.pushers <= v.doc.likes.Keys && (v.pushers != {} ==> v.doc.finished)
    && (v.doc.result != "" ==> GoodResult(v, v.doc.result))
  }

  // Once finished, membership and the lists pushed are fixed.
  predicate Later(a: Version, b: Version) {
    a.doc.finished ==>
      && b.doc.finished && b.doc.likes.Keys == a.doc.likes.Keys && a.pushers <= b.pushers
      && forall u :: u in a.pushers && u in a.doc.likes && u in b.doc.likes ==> b.doc.likes[u] == a.doc.likes[u]
  }

  // Its own push comes first, then results that are good where that push is applied.
  ghost predicate OutboxOk(v: Version, u: Uid, st: Store) {
    && (!st.pushed ==> st.outbox == [])
    && (st.pushed && u !in v.pushers ==> st.outbox != [] && st.outbox[0] == Push(st.sent))
    && (forall i :: 0 <= i < |st.outbox| && (i > 0 || u in v.pushers) ==> st.outbox[i].Result?)
    && forall i :: 0 <= i < |st.outbox| && st.outbox[i].Result? ==> GoodResult(Settled(v, u, st), st.outbox[i].name)
  }

  // The version with the client's push applied.
  function Settled(v: Version, u: Uid, st: Store): Version {
    if st.pushed && u !in v.pushers then Apply(v, u, Push(st.sent)) else v
  }

  ghost predicate StoreOk(versions: seq<Version>, u: Uid, st: Store)
    requires versions != []
  {
    var latest := versions[|versions| - 1];
    && st.seen < |versions| && (st.joined <==> u in latest.doc.likes)
    && (st.joined ==> forall k :: st.seen <= k < |versions| ==> u in versions[k].doc.likes)
    && (st.pushed ==> st.joined && versions[st.seen].doc.finished && st.sent <= st.liked)
    && (u in latest.pushers ==> st.pushed && u in versions[st.seen].pushers && latest.doc.likes[u] == st.sent)
    && OutboxOk(versions[st.seen], u, st)
  }

  ghost predicate History(versions: seq<Version>) {
    && versions != [] && (forall k :: 0 <= k < |versions| ==> VersionOk(versions[k]))
    && forall j, k :: 0 <= j <= k < |versions| ==> Later(versions[j], versions[k])
  }

  ghost predicate StoresOk(versions: seq<Version>, stores: map<Uid, Store>)
    requires versions != []
  {
    && (forall u :: u in stores ==> StoreOk(versions, u, stores[u]))
    && forall u :: u in versions[|versions| - 1].doc.likes ==> u in stores
  }

  ghost predicate Inv(s: State) { History(s.versions) && StoresOk(s.versions, s.stores) }

  // ----- Versions -----

  lemma LaterTrans(a: Version, b: Version, c: Version)
    requires Later(a, b) && Later(b, c) && VersionOk(a) && VersionOk(b)
    ensures Later(a, c)
  {
  }

  lemma GoodLater(a: Version, b: Version, name: Name)
    requires Later(a, b) && GoodResult(a, name) && b.pushers <= b.doc.likes.Keys
    ensures GoodResult(b, name)
  {
    assert b.doc.likes == a.doc.likes by {
      forall u | u in b.doc.likes ensures u in a.doc.likes && b.doc.likes[u] == a.doc.likes[u] {
        assert u in a.doc.likes && u in a.pushers;
      }
    }
  }

  lemma JoinKeeps(v: Version, u: Uid)
    requires VersionOk(v) && !v.doc.finished && u !in v.doc.likes
    ensures VersionOk(v.(doc := JoinDoc(v.doc, u)))
  {
    assert v.doc.likes[u := []].Keys == v.doc.likes.Keys + {u};
  }

  lemma LeaveKeeps(v: Version, u: Uid)
    requires VersionOk(v) && !v.doc.finished && u in v.doc.likes
    ensures VersionOk(v.(doc := LeaveDoc(v.doc, u)))
  {
    assert (v.doc.likes - {u}).Keys == v.doc.likes.Keys - {u};
  }

  lemma PushKeeps(v: Version, u: Uid, list: seq<Name>)
    requires VersionOk(v) && v.doc.finished && u in v.doc.likes && u !in v.pushers
    ensures VersionOk(Apply(v, u, Push(list))) && Later(v, Apply(v, u, Push(list)))
  {
    assert v.doc.likes[u := list].Keys == v.doc.likes.Keys;
    assert v.doc.result == "";
  }

  lemma ResultKeeps(v: Version, u: Uid, name: Name)
    requires VersionOk(v) && GoodResult(v, name)
    ensures VersionOk(Apply(v, u, Result(name))) && Later(v, Apply(v, u, Result(name)))
  {
  }

  lemma Appends(versions: seq<Version>, v: Version)
    requires History(versions) && VersionOk(v) && Later(versions[|versions| - 1], v)
    ensures History(versions + [v])
  {
    var all := versions + [v];
    forall j, k | 0 <= j <= k < |all| ensures Later(all[j], all[k]) {
      if k == |versions| && j < k { LaterTrans(versions[j], versions[|versions| - 1], v); }
    }
  }

  // A client that the update does not concern.
  lemma KeepStore(versions: seq<Version>, v: Version, u: Uid, st: Store)
    requires versions != [] && StoreOk(versions, u, st) && Unconcerned(versions[|versions| - 1], v, st, st, u)
    requires versions[|versions| - 1].pushers <= versions[|versions| - 1].doc.likes.Keys
    ensures StoreOk(versions + [v], u, st)
  {
  }

  // ----- A client's view -----

  predicate AllResults(ws: seq<Write>) { forall i :: 0 <= i < |ws| ==> ws[i].Result? }

  function LastResult(before: Name, ws: seq<Write>): Name
    requires AllResults(ws)
  {
    if ws == [] then before else ws[|ws| - 1].name
  }

  lemma {:induction false} ViewOfResults(v: Version, u: Uid, ws: seq<Write>)
    requires AllResults(ws)
    ensures View(v, u, ws) == v.(doc := v.doc.(result := LastResult(v.doc.result, ws)))
    decreases |ws|
  {
    if ws != [] { ViewOfResults(Apply(v, u, ws[0]), u, ws[1..]); }
  }

  // The results pending, after the push if that is pending too.
  function PendingResults(v: Version, u: Uid, st: Store): seq<Write> {
    if st.pushed && u !in v.pushers && st.outbox != [] then st.outbox[1..] else st.outbox
  }

  lemma ViewForm(v: Version, u: Uid, st: Store)
    requires OutboxOk(v, u, st)
    ensures AllResults(PendingResults(v, u, st))
    ensures forall i :: 0 <= i < |PendingResults(v, u, st)| ==> GoodResult(Settled(v, u, st), PendingResults(v, u, st)[i].name)
    ensures View(v, u, st.outbox) == View(Settled(v, u, st), u, PendingResults(v, u, st))
  {
    var ws := PendingResults(v, u, st);
    forall i | 0 <= i < |ws| ensures ws[i].Result? && GoodResult(Settled(v, u, st), ws[i].name) {
      if st.pushed && u !in v.pushers { assert ws[i] == st.outbox[i + 1]; }
    }
  }

  // The view is the settled version, but for the result.
  lemma ViewIs(v: Version, u: Uid, st: Store)
    requires OutboxOk(v, u, st) && VersionOk(v) && u in v.doc.likes && (st.pushed ==> v.doc.finished)
    ensures var w, settled := View(v, u, st.outbox), Settled(v, u, st);
      VersionOk(settled) && VersionOk(w) && w == settled.(doc := settled.doc.(result := w.doc.result)) && Later(v, settled)
  {
    var settled := Settled(v, u, st);
    ViewForm(v, u, st);
    ViewOfResults(settled, u, PendingResults(v, u, st));
    SettledOk(v, u, st);
    hide OutboxOk, Settled, PendingResults;
  }

  lemma SettledOk(v: Version, u: Uid, st: Store)
    requires VersionOk(v) && u in v.doc.likes && (st.pushed ==> v.doc.finished)
    ensures VersionOk(Settled(v, u, st)) && Later(v, Settled(v, u, st))
  {
    if st.pushed && u !in v.pushers { PushKeeps(v, u, st.sent); }
  }

  // Being shown a later version changes nothing of what is pending.
  lemma ShownLater(versions: seq<Version>, u: Uid, st: Store, k: nat)
    requires History(versions) && StoreOk(versions, u, st) && st.joined && st.seen <= k < |versions|
    ensures StoreOk(versions, u, st.(seen := k))
  {
    var a, b, latest := versions[st.seen], versions[k], versions[|versions| - 1];
    assert Later(a, b) && Later(b, latest) && VersionOk(a) && VersionOk(b);
    assert u in a.pushers <==> u in b.pushers;
    OutboxLater(a, b, u, st, k);
    hide OutboxOk, VersionOk, History;
  }

  lemma OutboxLater(a: Version, b: Version, u: Uid, st: Store, k: nat)
    requires OutboxOk(a, u, st) && Later(a, b) && VersionOk(a) && VersionOk(b) && (u in a.pushers <==> u in b.pushers)
    requires u in a.doc.likes && u in b.doc.likes && (st.pushed ==> a.doc.finished)
    ensures OutboxOk(b, u, st.(seen := k))
  {
    SettledLater(a, b, u, st);
    assert Settled(b, u, st.(seen := k)) == Settled(b, u, st);
    hide GoodResult, VersionOk, Later, Settled;
    ResultsStayGood(Settled(a, u, st), Settled(b, u, st), st.outbox);
  }

  lemma ResultsStayGood(a: Version, b: Version, ws: seq<Write>)
    requires Later(a, b) && b.pushers <= b.doc.likes.Keys
    ensures forall i :: 0 <= i < |ws| && ws[i].Result? && GoodResult(a, ws[i].name) ==> GoodResult(b, ws[i].name)
  {
    hide GoodResult, Later;
    forall i | 0 <= i < |ws| && ws[i].Result? && GoodResult(a, ws[i].name) ensures GoodResult(b, ws[i].name) {
      GoodLater(a, b, ws[i].name);
    }
  }

  lemma SettledLater(a: Version, b: Version, u: Uid, st: Store)
    requires Later(a, b) && VersionOk(a) && VersionOk(b) && (u in a.pushers <==> u in b.pushers) && u in a.doc.likes && u in b.doc.likes
    requires st.pushed ==> a.doc.finished
    ensures Later(Settled(a, u, st), Settled(b, u, st)) && Settled(b, u, st).pushers <= Settled(b, u, st).doc.likes.Keys
  {
    if st.pushed && u !in a.pushers {
      assert a.doc.likes[u := st.sent].Keys == a.doc.likes.Keys && b.doc.likes[u := st.sent].Keys == b.doc.likes.Keys;
    }
  }

  // When the counts agree, everyone has pushed.
  lemma CountsMeanEveryone(v: Version)
    requires VersionOk(v) && v.doc.finishedPushing == v.doc.participants
    ensures Everyone(v)
  {
    Subset(v.pushers, v.doc.likes.Keys);
  }

  lemma Subset(a: set<Uid>, b: set<Uid>)
    requires a <= b && |a| == |b|
    ensures a == b
  {
    assert |b - a| == |b| - |a|;
  }

  lemma PushingKeeps(versions: seq<Version>, u: Uid, st: Store)
    requires History(versions) && StoreOk(versions, u, st) && st.joined && versions[st.seen].doc.finished
    ensures StoreOk(versions, u, Pushing(st))
  {
    assert Later(versions[st.seen], versions[|versions| - 1]);
  }

  lemma ResultPending(versions: seq<Version>, u: Uid, st: Store, name: Name)
    requires versions != [] && StoreOk(versions, u, st) && st.pushed && GoodResult(Settled(versions[st.seen], u, st), name)
    ensures StoreOk(versions, u, st.(outbox := st.outbox + [Result(name)]))
  {
    hide GoodResult;
  }

  // A result chosen from a view in which everyone has pushed.
  lemma CalculatingKeeps(versions: seq<Version>, u: Uid, st: Store, settled: Version, view: Version, name: Name)
    requires versions != [] && StoreOk(versions, u, st) && st.pushed && settled == Settled(versions[st.seen], u, st)
    requires VersionOk(view) && view == settled.(doc := settled.doc.(result := view.doc.result)) && u in view.doc.likes
    requires view.doc.finishedPushing == view.doc.participants && Picks(view.doc.likes, name)
    ensures StoreOk(versions, u, st.(outbox := st.outbox + [Result(name)]))
  {
    CountsMeanEveryone(view);
    OncePushed(view, u);
    hide StoreOk, VersionOk, Picks;
    ResultPending(versions, u, st, name);
  }

  // The listener leaves the client in order.
  lemma ReactsKeeps(versions: seq<Version>, u: Uid, st: Store, st': Store)
    requires History(versions) && StoreOk(versions, u, st) && st.joined
    requires Reacts(st, View(versions[st.seen], u, st.outbox).doc, st')
    ensures StoreOk(versions, u, st') && st'.joined
  {
    var v := versions[st.seen];
    var view, settled := View(v, u, st.outbox), Settled(v, u, st);
    Ends(versions, st.seen);
    ViewIs(v, u, st);
    var shown := if view.doc.result != "" then st.(result := view.doc.result) else st;
    ShownKeeps(versions, u, st, shown.result);
    var after := if view.doc.finished then Pushing(shown) else shown;
    SettledFinished(v, u, st);
    if view.doc.finished { PushingKeeps(versions, u, shown); }
    if Calculates(after, view.doc) {
      CountsMeanEveryone(view);
      PushedIfPusher(versions, u, st);
      hide StoreOk, OutboxOk, View, VersionOk, History, Later, Settled;
      CalculatingKeeps(versions, u, after, settled, view, st'.outbox[|st'.outbox| - 1].name);
    }
  }

  lemma ShownKeeps(versions: seq<Version>, u: Uid, st: Store, result: Name)
    requires versions != [] && StoreOk(versions, u, st)
    ensures StoreOk(versions, u, st.(result := result))
  {
    assert Settled(versions[st.seen], u, st.(result := result)) == Settled(versions[st.seen], u, st);
    hide GoodResult;
  }

  lemma SettledFinished(v: Version, u: Uid, st: Store)
    ensures Settled(v, u, st).doc.finished == v.doc.finished
  {
  }

  lemma PushedIfPusher(versions: seq<Version>, u: Uid, st: Store)
    requires History(versions) && StoreOk(versions, u, st)
    ensures u in Settled(versions[st.seen], u, st).pushers ==> st.pushed
    ensures forall st': Store :: st'.pushed == st.pushed && st'.sent == st.sent ==> Settled(versions[st.seen], u, st') == Settled(versions[st.seen], u, st)
  {
    Ends(versions, st.seen);
  }

  lemma OncePushed(v: Version, u: Uid)
    requires VersionOk(v) && u in v.pushers
    ensures v.doc.finished
  {
  }

  // ----- Every step keeps it -----

  // What the history gives at its ends.
  lemma Ends(versions: seq<Version>, k: nat)
    requires History(versions) && k < |versions|
    ensures VersionOk(versions[k]) && VersionOk(versions[|versions| - 1]) && Later(versions[k], versions[|versions| - 1])
  {
  }

  predicate Unconcerned(latest: Version, v: Version, st: Store, st': Store, u: Uid) {
    && st' == st && (u in v.doc.likes <==> u in latest.doc.likes) && (u in v.pushers <==> u in latest.pushers)
    && (u in v.doc.likes && u in latest.doc.likes ==> v.doc.likes[u] == latest.doc.likes[u])
  }

  // An update that concerns one client at most, whose own state is seen to.
  lemma UpdateKeeps(s: State, s': State, v: Version)
    requires Inv(s) && s'.versions == s.versions + [v] && VersionOk(v) && Later(Latest(s), v)
    requires s'.stores.Keys == s.stores.Keys && (forall u :: u in v.doc.likes ==> u in s.stores)
    requires forall u :: u in s.stores ==> Unconcerned(Latest(s), v, s.stores[u], s'.stores[u], u) || StoreOk(s'.versions, u, s'.stores[u])
    ensures Inv(s')
  {
    InvMembers(s);
    hide VersionOk, Later, StoreOk, History, Unconcerned;
    Ends(s.versions, 0);
    PushersAreMembers(Latest(s));
    Appends(s.versions, v);
    forall u | u in s'.stores ensures StoreOk(s'.versions, u, s'.stores[u]) {
      if Unconcerned(Latest(s), v, s.stores[u], s'.stores[u], u) { UnconcernedKeeps(s.versions, v, u, s.stores[u], s'.stores[u]); }
    }
  }

  lemma UnconcernedKeeps(versions: seq<Version>, v: Version, u: Uid, st: Store, st': Store)
    requires versions != [] && StoreOk(versions, u, st) && Unconcerned(versions[|versions| - 1], v, st, st', u)
    requires versions[|versions| - 1].pushers <= versions[|versions| - 1].doc.likes.Keys
    ensures StoreOk(versions + [v], u, st')
  {
    assert st' == st;
    hide StoreOk;
    KeepStore(versions, v, u, st);
  }

  lemma PushersAreMembers(v: Version)
    requires VersionOk(v)
    ensures v.pushers <= v.doc.likes.Keys
  {
  }

  // Before the end nobody has pushed, and a member is one who has joined.
  lemma NotFinished(s: State, u: Uid)
    requires Inv(s) && u in s.stores && !Latest(s).doc.finished
    ensures VersionOk(Latest(s)) && (s.stores[u].joined <==> u in Latest(s).doc.likes)
    ensures !s.stores[u].pushed && u !in Latest(s).pushers && s.stores[u].outbox == []
  {
    assert StoreOk(s.versions, u, s.stores[u]);
    Ends(s.versions, s.stores[u].seen);
  }

  lemma JoinedStore(versions: seq<Version>, v: Version, u: Uid, st: Store)
    requires !st.pushed && st.outbox == [] && u !in v.pushers
    ensures st.joined && u in v.doc.likes && st.seen == |versions| ==> StoreOk(versions + [v], u, st)
    ensures !st.joined && u !in v.doc.likes && st.seen < |versions| ==> StoreOk(versions + [v], u, st)
  {
  }

  lemma JoinStep(s: State, u: Uid, s': State)
    requires Inv(s) && Next(s, Join(u), s')
    ensures Inv(s')
  {
    hide Inv, History, StoresOk, StoreOk, VersionOk;
    SeenInRange(s, u);
    NotFinished(s, u);
    InvMembers(s);
    var latest := Latest(s);
    JoinKeeps(latest, u);
    var v := latest.(doc := JoinDoc(latest.doc, u));
    JoinedStore(s.versions, v, u, s'.stores[u]);
    forall w | w in s.stores && w != u ensures Unconcerned(latest, v, s.stores[w], s'.stores[w], w) {}
    UpdateKeeps(s, s', v);
  }

  lemma SeenInRange(s: State, u: Uid)
    requires Inv(s) && u in s.stores
    ensures s.stores[u].seen < |s.versions| && StoreOk(s.versions, u, s.stores[u])
  {
    assert StoreOk(s.versions, u, s.stores[u]);
  }

  lemma InvMembers(s: State)
    requires Inv(s)
    ensures s.versions != [] && forall u :: u in Latest(s).doc.likes ==> u in s.stores
  {
  }

  lemma LeaveStep(s: State, u: Uid, s': State)
    requires Inv(s) && Next(s, Leave(u), s')
    ensures Inv(s')
  {
    hide Inv, History, StoresOk, StoreOk, VersionOk;
    SeenInRange(s, u);
    NotFinished(s, u);
    InvMembers(s);
    var latest := Latest(s);
    LeaveKeeps(latest, u);
    var v := latest.(doc := LeaveDoc(latest.doc, u));
    JoinedStore(s.versions, v, u, s'.stores[u]);
    forall w | w in s.stores && w != u ensures Unconcerned(latest, v, s.stores[w], s'.stores[w], w) {}
    UpdateKeeps(s, s', v);
  }

  lemma FlagsStep(s: State, step: Step, s': State)
    requires Inv(s) && (step.Start? || step.End?) && Next(s, step, s')
    ensures Inv(s')
  {
    hide Inv, History, StoresOk, StoreOk, VersionOk, Later;
    InvMembers(s);
    InvHistory(s);
    Ends(s.versions, 0);
    var latest := Latest(s);
    FlagsKeep(latest, true, latest.doc.finished);
    FlagsKeep(latest, false, true);
    UpdateKeeps(s, s', Latest(s'));
  }

  lemma InvHistory(s: State)
    requires Inv(s)
    ensures History(s.versions)
  {
  }

  lemma FlagsKeep(v: Version, live: bool, finished: bool)
    requires VersionOk(v) && (v.doc.finished ==> finished)
    ensures var w := v.(doc := v.doc.(live := live, finished := finished)); VersionOk(w) && Later(v, w)
  {
  }

  // A change to one client alone.
  lemma ClientKeeps(s: State, u: Uid, st: Store)
    requires Inv(s) && u in s.stores && StoreOk(s.versions, u, st)
    ensures Inv(s.(stores := s.stores[u := st]))
  {
    hide StoreOk, History;
  }

  lemma LikedKeeps(versions: seq<Version>, u: Uid, st: Store, liked: seq<Name>)
    requires versions != [] && StoreOk(versions, u, st) && st.liked <= liked
    ensures StoreOk(versions, u, st.(liked := liked))
  {
    var v := versions[st.seen];
    assert Settled(v, u, st.(liked := liked)) == Settled(v, u, st);
    hide GoodResult;
  }

  lemma LikeStep(s: State, u: Uid, name: Name, s': State)
    requires Inv(s) && Next(s, Like(u, name), s')
    ensures Inv(s')
  {
    SeenInRange(s, u);
    LikedKeeps(s.versions, u, s.stores[u], s.stores[u].liked + [name]);
    ClientKeeps(s, u, s'.stores[u]);
  }

  lemma SnapshotStep(s: State, u: Uid, k: nat, s': State)
    requires Inv(s) && Next(s, Snapshot(u, k), s')
    ensures Inv(s')
  {
    SeenInRange(s, u);
    hide StoreOk, StoresOk, History, Reacts, View;
    ShownLater(s.versions, u, s.stores[u], k);
    ReactsKeeps(s.versions, u, s.stores[u].(seen := k), s'.stores[u]);
    ClientKeeps(s, u, s'.stores[u]);
  }

  // The first pending update fits the latest version.
  lemma Delivers(versions: seq<Version>, u: Uid, st: Store)
    requires History(versions) && StoreOk(versions, u, st) && st.seen == |versions| - 1 && st.outbox != []
    ensures st.pushed && st.joined
    ensures var latest := versions[|versions| - 1]; VersionOk(Apply(latest, u, st.outbox[0])) && Later(latest, Apply(latest, u, st.outbox[0]))
    ensures st.outbox[0].Push? ==> st.outbox[0].list == st.sent && u !in versions[|versions| - 1].pushers
  {
    var latest := versions[|versions| - 1];
    Ends(versions, 0);
    var w := st.outbox[0];
    if w.Push? {
      PushKeeps(latest, u, st.sent);
    } else {
      assert GoodResult(Settled(latest, u, st), w.name);
      ResultKeeps(latest, u, w.name);
    }
  }

  // The new version, and the client that made it.
  lemma DeliveredAt(versions: seq<Version>, u: Uid, st: Store)
    requires History(versions) && StoreOk(versions, u, st) && st.outbox != []
    ensures versions != [] && u in versions[|versions| - 1].doc.likes
    ensures var latest := versions[|versions| - 1]; var v := Apply(latest, u, st.outbox[0]);
      && VersionOk(v) && Later(latest, v)
      && StoreOk(versions + [v], u, st.(outbox := st.outbox[1..], seen := |versions|))
  {
    PendingJoined(versions, u, st);
    hide StoreOk, History, VersionOk, Later, Apply;
    var now := |versions| - 1;
    ShownLater(versions, u, st, now);
    var up := st.(seen := now);
    Delivers(versions, u, up);
    DeliveredKeeps(versions, u, up, Apply(versions[now], u, st.outbox[0]));
  }

  lemma OthersUnconcerned(latest: Version, u: Uid, w: Write, x: Uid, st: Store)
    requires x != u
    ensures Unconcerned(latest, Apply(latest, u, w), st, st, x)
    ensures x in Apply(latest, u, w).doc.likes ==> x in latest.doc.likes
  {
  }

  lemma DeliverStep(s: State, u: Uid, s': State)
    requires Inv(s) && Next(s, Deliver(u), s')
    ensures Inv(s')
  {
    hide Inv, History, StoresOk, StoreOk, VersionOk, Later, Apply, Unconcerned;
    InvMembers(s);
    SeenInRange(s, u);
    InvHistory(s);
    var latest, w := Latest(s), s.stores[u].outbox[0];
    var v := Apply(latest, u, w);
    DeliveredAt(s.versions, u, s.stores[u]);
    forall x | x != u ensures x in v.doc.likes ==> x in latest.doc.likes {
      OthersUnconcerned(latest, u, w, x, s.stores[u]);
    }
    forall x | x in s.stores && x != u ensures Unconcerned(latest, v, s.stores[x], s'.stores[x], x) {
      OthersUnconcerned(latest, u, w, x, s.stores[x]);
    }
    UpdateKeeps(s, s', v);
  }

  lemma PendingJoined(versions: seq<Version>, u: Uid, st: Store)
    requires versions != [] && StoreOk(versions, u, st)
    ensures st.seen < |versions|
    ensures st.outbox != [] ==> st.pushed && st.joined && u in versions[|versions| - 1].doc.likes
  {
  }

  // Once the first pending update is applied, the rest are as before.
  lemma DeliveredKeeps(versions: seq<Version>, u: Uid, st: Store, v: Version)
    requires versions != [] && StoreOk(versions, u, st) && st.seen == |versions| - 1 && st.outbox != []
    requires v == Apply(versions[|versions| - 1], u, st.outbox[0])
    ensures StoreOk(versions + [v], u, st.(outbox := st.outbox[1..], seen := |versions|))
  {
    var st' := st.(outbox := st.outbox[1..], seen := |versions|);
    DeliveredOutbox(versions[|versions| - 1], u, st, st', v);
    hide OutboxOk;
    LatestStore(versions, u, st', v);
  }

  lemma LatestStore(versions: seq<Version>, u: Uid, st: Store, v: Version)
    requires st.joined && st.pushed && st.seen == |versions| && u in v.doc.likes && v.doc.finished && v.doc.likes[u] == st.sent && u in v.pushers
    requires OutboxOk(v, u, st) && st.sent <= st.liked
    ensures StoreOk(versions + [v], u, st)
  {
    hide OutboxOk;
  }

  lemma DeliveredOutbox(latest: Version, u: Uid, st: Store, st': Store, v: Version)
    requires OutboxOk(latest, u, st) && st.outbox != [] && v == Apply(latest, u, st.outbox[0])
    requires u in latest.doc.likes && (u in latest.pushers ==> latest.doc.likes[u] == st.sent)
    requires st'.outbox == st.outbox[1..] && st'.pushed == st.pushed && st'.sent == st.sent
    ensures OutboxOk(v, u, st')
    ensures st.pushed && u in v.pushers && u in v.doc.likes && v.doc.likes[u] == st.sent
  {
    hide Picks;
    forall i | 0 <= i < |st'.outbox| ensures st'.outbox[i].Result? && GoodResult(Settled(v, u, st'), st'.outbox[i].name) {
      assert st'.outbox[i] == st.outbox[i + 1];
      assert GoodResult(Settled(latest, u, st), st.outbox[i + 1].name);
    }
  }

  lemma NextKeepsInv(s: State, step: Step, s': State)
    requires Inv(s) && Next(s, step, s')
    ensures Inv(s')
  {
    match step
    case Join(u) => JoinStep(s, u, s');
    case Leave(u) => LeaveStep(s, u, s');
    case Start => FlagsStep(s, step, s');
    case End => FlagsStep(s, step, s');
    case Like(u, name) => LikeStep(s, u, name, s');
    case Snapshot(u, k) => SnapshotStep(s, u, k, s');
    case Deliver(u) => DeliverStep(s, u, s');
  }

  lemma InitInv(s: State)
    requires Init(s)
    ensures Inv(s)
  {
    var c :| Creates(s, c);
  }

  lemma {:induction false} RunKeepsInv(run: seq<State>, steps: seq<Step>, i: nat)
    requires Run(run, steps) && i < |run|
    ensures Inv(run[i])
  {
    if i == 0 {
      InitInv(run[0]);
    } else {
      RunKeepsInv(run, steps, i - 1);
      NextKeepsInv(run[i - 1], steps[i - 1], run[i]);
    }
  }

  /** In every state of every run, the counts are right. */
  lemma CountsAreRight(run: seq<State>, steps: seq<Step>, i: nat)
    requires Run(run, steps) && i < |run|
    ensures var d := Latest(run[i]).doc;
      d.participants == |d.likes| && d.finishedPushing == |Latest(run[i]).pushers|
    ensures forall u :: u in Latest(run[i]).pushers ==> u in run[i].stores && run[i].stores[u].pushed
  {
    RunKeepsInv(run, steps, i);
    forall u | u in Latest(run[i]).pushers ensures u in run[i].stores && run[i].stores[u].pushed {
      assert u in Latest(run[i]).doc.likes && StoreOk(run[i].versions, u, run[i].stores[u]);
    }
  }

  /** Whoever has pushed, by the latest version, pushed what it liked at the time: its list in the
      document is what it liked in some earlier state, when it had not pushed, just before one in
      which it had. */
  lemma PushedWasLiked(run: seq<State>, steps: seq<Step>, i: nat, u: Uid)
    requires Run(run, steps) && i < |run| && u in Latest(run[i]).pushers
    ensures u in Latest(run[i]).doc.likes
    ensures exists j :: 0 <= j < i && PushesAt(run[j], run[j + 1], u, Latest(run[i]).doc.likes[u])
  {
    RunKeepsInv(run, steps, i);
    assert VersionOk(Latest(run[i]));
    assert StoreOk(run[i].versions, u, run[i].stores[u]);
    SentWasLiked(run, steps, i, u);
  }

  predicate PushesAt(s: State, s': State, u: Uid, list: seq<Name>) {
    u in s.stores && u in s'.stores && !s.stores[u].pushed && s'.stores[u].pushed && list == s.stores[u].liked
  }

  lemma {:induction false} SentWasLiked(run: seq<State>, steps: seq<Step>, i: nat, u: Uid)
    requires Run(run, steps) && i < |run| && u in run[i].stores && run[i].stores[u].pushed
    ensures exists j :: 0 <= j < i && PushesAt(run[j], run[j + 1], u, run[i].stores[u].sent)
  {
    if i == 0 {
      InitNotPushed(run[0], u);
    } else {
      OneStepSends(run[i - 1], steps[i - 1], run[i], u);
      if run[i - 1].stores[u].pushed {
        SentWasLiked(run, steps, i - 1, u);
      } else {
        assert PushesAt(run[i - 1], run[i - 1 + 1], u, run[i].stores[u].sent);
      }
    }
  }

  lemma InitNotPushed(s: State, u: Uid)
    requires Init(s) && u in s.stores
    ensures !s.stores[u].pushed
  {
    var c :| Creates(s, c);
  }

  lemma OneStepSends(s: State, step: Step, s': State, u: Uid)
    requires s.versions != [] && Next(s, step, s') && u in s'.stores
    ensures u in s.stores && (s.stores[u].pushed ==> s'.stores[u].pushed && s'.stores[u].sent == s.stores[u].sent)
    ensures !s.stores[u].pushed && s'.stores[u].pushed ==> s'.stores[u].sent == s.stores[u].liked
  {
    hide View, Picks;
  }

  /** Only a client that created the session ever sends a result. */
  lemma {:induction false} OnlyCreatorsSend(run: seq<State>, steps: seq<Step>, i: nat, u: Uid, j: nat)
    requires Run(run, steps) && i < |run| && u in run[i].stores && j < |run[i].stores[u].outbox| && run[i].stores[u].outbox[j].Result?
    ensures run[i].stores[u].created
  {
    if i == 0 {
      InitSendsNothing(run[0], u);
    } else {
      var k := OneStepCreates(run[i - 1], steps[i - 1], run[i], u, j);
      if !run[i].stores[u].created { OnlyCreatorsSend(run, steps, i - 1, u, k); }
    }
  }

  lemma InitSendsNothing(s: State, u: Uid)
    requires Init(s) && u in s.stores
    ensures s.stores[u].outbox == []
  {
    var c :| Creates(s, c);
  }

  lemma OneStepCreates(s: State, step: Step, s': State, u: Uid, j: nat) returns (k: nat)
    requires s.versions != [] && Next(s, step, s') && u in s'.stores && j < |s'.stores[u].outbox| && s'.stores[u].outbox[j].Result?
    ensures u in s.stores && s'.stores[u].created == s.stores[u].created
    ensures !s.stores[u].created ==> k < |s.stores[u].outbox| && s.stores[u].outbox[k].Result?
  {
    hide View, Picks;
    k := if step.Deliver? && step.u == u then j + 1 else j;
  }

  /** A published result comes after every participant has pushed.  It is in every list, and liked
      by every participant; or it is "Error", and no name is in every list. */
  lemma ResultIsShared(run: seq<State>, steps: seq<Step>, i: nat)
    requires Run(run, steps) && i < |run| && Latest(run[i]).doc.result != ""
    ensures var d := Latest(run[i]).doc;
      && Latest(run[i]).pushers == d.likes.Keys
      && (InEvery(d.likes, d.result) || (d.result == "Error" && forall name :: !InEvery(d.likes, name)))
      && (InEvery(d.likes, d.result) ==> forall u :: u in d.likes ==> u in run[i].stores && d.result in run[i].stores[u].liked)
  {
    RunKeepsInv(run, steps, i);
    var v := Latest(run[i]);
    assert VersionOk(v);
    forall u | u in v.doc.likes ensures u in run[i].stores && forall name :: name in v.doc.likes[u] ==> name in run[i].stores[u].liked {
      assert StoreOk(run[i].versions, u, run[i].stores[u]);
    }
    NoneShared(v.doc.likes, v.doc.result);
  }

  predicate InEvery(likes: map<Uid, seq<Name>>, name: Name) { forall u :: u in likes ==> name in likes[u] }

  lemma NoneShared(likes: map<Uid, seq<Name>>, name: Name)
    requires Picks(likes, name)
    ensures InEvery(likes, name) || (name == "Error" && forall n :: !InEvery(likes, n))
  {
    if Common(likes) == {} && !InEvery(likes, name) {
      var w :| w in likes && name !in likes[w];
      forall n ensures !InEvery(likes, n) {
        if n in likes[w] { assert n !in Common(likes); }
      }
    }
  }

  lemma ViewCounts(versions: seq<Version>, u: Uid, st: Store)
    requires History(versions) && StoreOk(versions, u, st) && st.joined
    ensures var v := View(versions[st.seen], u, st.outbox);
      v.doc.finishedPushing == |v.pushers| && v.doc.participants == |v.doc.likes| == |v.doc.likes.Keys|
  {
    Ends(versions, st.seen);
    ViewIs(versions[st.seen], u, st);
  }

  lemma CreatorReacts(st: Store, d: Doc, st': Store)
    requires Reacts(st, d, st') && st.created && d.finishedPushing == d.participants
    ensures st'.result != "" || (st'.outbox != [] && st'.outbox[|st'.outbox| - 1].Result?)
  {
    hide Picks;
  }

  lemma CountsInView(s: State, u: Uid)
    requires Inv(s) && u in s.stores && s.stores[u].joined && s.stores[u].seen <= |s.versions| - 1
    ensures var v := View(Latest(s), u, s.stores[u].outbox);
      v.doc.finishedPushing == |v.pushers| && v.doc.participants == |v.doc.likes| == |v.doc.likes.Keys|
  {
    hide StoreOk, History, View, VersionOk;
    SeenInRange(s, u);
    InvHistory(s);
    ShownLater(s.versions, u, s.stores[u], |s.versions| - 1);
    ViewCounts(s.versions, u, s.stores[u].(seen := |s.versions| - 1));
  }

  lemma CreatorSees(s: State, u: Uid, s': State)
    requires Inv(s) && s.versions != [] && Next(s, Snapshot(u, |s.versions| - 1), s') && u in s.stores && s.stores[u].created
    requires var v := View(Latest(s), u, s.stores[u].outbox); v.pushers == v.doc.likes.Keys
    ensures u in s'.stores
    ensures var st := s'.stores[u]; st.result != "" || (st.outbox != [] && st.outbox[|st.outbox| - 1].Result?)
  {
    hide Inv, View, Reacts;
    CountsInView(s, u);
    CreatorReacts(s.stores[u].(seen := |s.versions| - 1), View(Latest(s), u, s.stores[u].outbox).doc, s'.stores[u]);
  }

  lemma StepOfRun(run: seq<State>, steps: seq<Step>, i: nat)
    requires Run(run, steps) && i < |steps|
    ensures |run| == |steps| + 1 && run[i].versions != [] && Next(run[i], steps[i], run[i + 1])
  {
    hide Next, Init;
  }

  /** Once everyone has pushed and the creator is shown that, a result is on its way, if it has not
      seen one. */
  lemma ResultFollows(run: seq<State>, steps: seq<Step>, i: nat, u: Uid)
    requires Run(run, steps) && i < |steps| && steps[i] == Snapshot(u, |run[i].versions| - 1)
    requires u in run[i].stores && run[i].stores[u].created
    requires var v := View(Latest(run[i]), u, run[i].stores[u].outbox); v.pushers == v.doc.likes.Keys
    ensures u in run[i + 1].stores
    ensures var st := run[i + 1].stores[u];
      st.result != "" || (st.outbox != [] && st.outbox[|st.outbox| - 1].Result?)
  {
    hide View, Inv, Next;
    RunKeepsInv(run, steps, i);
    StepOfRun(run, steps, i);
    hide Run;
    CreatorSees(run[i], u, run[i + 1]);
  }

  // ----- The assumptions -----

  /** Joining keeps the count of participants exactly when the user is not already one. */
  lemma JoinCountsIff(d: Doc, u: Uid)
    requires d.participants == |d.likes|
    ensures JoinDoc(d, u).participants == |JoinDoc(d, u).likes| <==> u !in d.likes
  {
    Grown(d.likes, u, []);
  }

  /** Leaving keeps it exactly when the user is one. */
  lemma LeaveCountsIff(d: Doc, u: Uid)
    requires d.participants == |d.likes|
    ensures LeaveDoc(d, u).participants == |LeaveDoc(d, u).likes| <==> u in d.likes
  {
    Shrunk(d.likes, u);
  }

  // Any update of the document, by anyone at any time.
  datatype Update = Joins(u: Uid) | Leaves(u: Uid) | Flags(live: bool, finished: bool) | Writes(u: Uid, w: Write)

  function Updated(v: Version, x: Update): Version {
    match x
    case Joins(u) => v.(doc := JoinDoc(v.doc, u))
    case Leaves(u) => v.(doc := LeaveDoc(v.doc, u))
    case Flags(live, finished) => v.(doc := v.doc.(live := live, finished := finished))
    case Writes(u, w) => Apply(v, u, w)
  }

  function AfterAll(v: Version, xs: seq<Update>): Version
    decreases |xs|
  {
    if xs == [] then v else AfterAll(Updated(v, xs[0]), xs[1..])
  }

  // How far an update takes participants off the number of lists: up by a user who joins again,
  // down by one who leaves, or pushes, without being in the session.
  function Off(v: Version, x: Update): int {
    match x
    case Joins(u) => if u in v.doc.likes then 1 else 0
    case Leaves(u) => if u in v.doc.likes then 0 else -1
    case Flags(_, _) => 0
    case Writes(u, w) => if w.Push? && u !in v.doc.likes then -1 else 0
  }

  function Drift(v: Version, xs: seq<Update>): int
    decreases |xs|
  {
    if xs == [] then 0 else Off(v, xs[0]) + Drift(Updated(v, xs[0]), xs[1..])
  }

  lemma OneUpdate(v: Version, x: Update)
    ensures Updated(v, x).doc.participants - |Updated(v, x).doc.likes| == v.doc.participants - |v.doc.likes| + Off(v, x)
  {
    match x
    case Joins(u) => Grown(v.doc.likes, u, []);
    case Leaves(u) => Shrunk(v.doc.likes, u);
    case Flags(_, _) =>
    case Writes(u, w) => if w.Push? { Grown(v.doc.likes, u, w.list); }
  }

  lemma Grown(likes: map<Uid, seq<Name>>, u: Uid, list: seq<Name>)
    ensures |likes[u := list]| == |likes| + if u in likes then 0 else 1
  {
    if u in likes {
      assert likes[u := list].Keys == likes.Keys;
    } else {
      assert likes[u := list].Keys == likes.Keys + {u};
    }
    Sizes(likes, likes[u := list]);
  }

  lemma Shrunk(likes: map<Uid, seq<Name>>, u: Uid)
    ensures |likes - {u}| == |likes| - if u in likes then 1 else 0
  {
    assert (likes - {u}).Keys == likes.Keys - {u};
    Sizes(likes, likes - {u});
  }

  lemma {:induction false} DriftAdds(v: Version, xs: seq<Update>)
    ensures AfterAll(v, xs).doc.participants - |AfterAll(v, xs).doc.likes| == v.doc.participants - |v.doc.likes| + Drift(v, xs)
    decreases |xs|
  {
    hide Updated, Off;
    if xs != [] {
      OneUpdate(v, xs[0]);
      DriftAdds(Updated(v, xs[0]), xs[1..]);
    }
  }

  /** Whatever updates anyone makes, the count of participants ends up right exactly when those who
      joined again are as many as those who left or pushed without being in the session. */
  lemma CountsRightIff(v: Version, xs: seq<Update>)
    requires v.doc.participants == |v.doc.likes|
    ensures AfterAll(v, xs).doc.participants == |AfterAll(v, xs).doc.likes| <==> Drift(v, xs) == 0
  {
    DriftAdds(v, xs);
  }

  lemma Sizes(a: map<Uid, seq<Name>>, b: map<Uid, seq<Name>>)
    ensures |a| == |a.Keys| && |b| == |b.Keys|
  {
  }

  /** A user who joins after the result is out has not liked it, unless it is "Error". */
  lemma LateJoinIff(d: Doc, u: Uid)
    requires d.result != "" && LikedByAll(d.likes, d.result)
    ensures LikedByAll(JoinDoc(d, u).likes, d.result) <==> d.result == "Error"
  {
    assert JoinDoc(d, u).likes[u] == [];
  }

  // ----- The client's code -----

  class SessionStore {
    const uid: Uid
    var pushed: bool
    var createdSession: bool
    var sessionLive: bool
    var finished: bool
    var result: Name
    var numParticipants: int
    var likedRestaurants: seq<Name>
    var likes: map<Uid, seq<Name>>
    var outbox: seq<Write>   // updates on their way to the document
    ghost var sent: seq<Name>
    ghost var seen: nat

    // The client in a session, as the protocol sees it.
    ghost function Abs(): Store reads this {
      Store(true, createdSession, pushed, likedRestaurants, sent, result, outbox, seen)
    }

    constructor (uid: Uid)
      ensures this.uid == uid && Abs() == Store(true, false, false, [], [], "", [], 0)
    {
      this.uid := uid;
      pushed, createdSession, sessionLive, finished, result, numParticipants := false, false, false, false, "", 0;
      likedRestaurants, likes, outbox, sent, seen := [], map[], [], [], 0;
    }

    method LikeRestaurant(name: Name)
      modifies this`likedRestaurants
      ensures Abs() == old(Abs()).(liked := old(likedRestaurants) + [name])
    {
      likedRestaurants := likedRestaurants + [name];
    }

    /** Pushes once, whatever is liked later. */
    method PushResults()
      modifies this`pushed, this`outbox, this`sent
      ensures Abs() == Pushing(old(Abs()))
      ensures pushed && (old(pushed) ==> outbox == old(outbox))
      ensures !old(pushed) ==> outbox == old(outbox) + [Push(old(likedRestaurants))] && sent == old(likedRestaurants)
    {
      if !pushed {
        pushed := true;
        sent := likedRestaurants;
        outbox := outbox + [Push(likedRestaurants)];
      }
    }

    /** Some name in every list, or "Error" if there is none. */
    method CalcResult()
      requires likes != map[]
      modifies this`outbox
      ensures |outbox| == |old(outbox)| + 1 && outbox[..|old(outbox)|] == old(outbox)
      ensures outbox[|old(outbox)|].Result? && Picks(likes, outbox[|old(outbox)|].name)
    {
      var strings: seq<set<Name>> := [];
      var users := likes.Keys;
      while users != {}
        invariant users <= likes.Keys && outbox == old(outbox)
        invariant forall u :: u in likes && u !in users ==> (set name | name in likes[u]) in strings
        invariant forall t :: t in strings ==> exists u :: u in likes && t == set name | name in likes[u]
        invariant users == likes.Keys || strings != []
        decreases |users|
      {
        var u :| u in users;
        strings := strings + [set name | name in likes[u]];
        users := users - {u};
      }
      hide Picks, Common;
      ghost var lists := strings;
      for i := 0 to |strings|
        invariant strings != [] && |strings| == |lists| && outbox == old(outbox)
        invariant forall k :: 0 < k < |lists| ==> strings[k] == lists[k]
        invariant forall name :: name in strings[0] <==> name in lists[0] && forall k :: 0 <= k < i ==> name in lists[k]
      {
        strings := strings[0 := strings[0] * strings[i]];
      }
      AllLists(likes, lists, strings[0]);
      var selection: Name := "Error";
      if strings[0] != {} {
        selection :| selection in strings[0];
      }
      OneOfThem(likes, selection);
      outbox := outbox + [Result(selection)];
    }

    /** The snapshot listener, on a document that still exists. */
    method WatchSession(data: Doc)
      requires uid in data.likes
      modifies this
      ensures Reacts(old(Abs()), data, Abs())
      ensures result == (if data.result != "" then data.result else old(result)) && likes == data.likes && finished == data.finished
      ensures data.finished && !old(pushed) ==> pushed && |outbox| > |old(outbox)| && outbox[|old(outbox)|] == Push(old(likedRestaurants))
      ensures data.finishedPushing == data.participants && createdSession && result == "" ==> outbox != [] && outbox[|outbox| - 1].Result?
      ensures !(data.finishedPushing == data.participants && createdSession && result == "") ==>
        outbox == old(outbox) + if data.finished && !old(pushed) then [Push(old(likedRestaurants))] else []
      ensures createdSession == old(createdSession)
    {
      hide Picks, Common, Reacts, Pushing, ShownAndPushed;
      ghost var before := Abs();
      TakeOver(data);
      ghost var after := Abs();
      if data.finishedPushing == numParticipants && createdSession && result == "" {
        CalcResult();
        assert outbox == after.outbox + [outbox[|outbox| - 1]];
      }
      ReactsSo(before, data, Abs());
    }

    // The state of the document, and the push if the session is finished.
    method TakeOver(data: Doc)
      modifies this
      ensures Abs() == ShownAndPushed(old(Abs()), data)
      ensures result == (if data.result != "" then data.result else old(result)) && createdSession == old(createdSession)
      ensures likes == data.likes && finished == data.finished && numParticipants == data.participants
      ensures data.finished && !old(pushed) ==> pushed && outbox == old(outbox) + [Push(old(likedRestaurants))]
      ensures !data.finished || old(pushed) ==> outbox == old(outbox)
    {
      if data.live != sessionLive {
        sessionLive := data.live;
      }
      numParticipants := data.participants;
      if data.result != "" {
        result := data.result;
      }
      finished := data.finished;
      if finished {
        PushResults();
      }
      likes := data.likes;
    }
  }

  // What the listener does before it comes to the result.
  function ShownAndPushed(st: Store, d: Doc): Store {
    var shown := if d.result != "" then st.(result := d.result) else st;
    if d.finished then Pushing(shown) else shown
  }

  lemma ReactsSo(st: Store, d: Doc, st': Store)
    requires !Calculates(ShownAndPushed(st, d), d) ==> st' == ShownAndPushed(st, d)
    requires Calculates(ShownAndPushed(st, d), d) ==>
      && st'.outbox != [] && st'.outbox[|st'.outbox| - 1].Result? && Picks(d.likes, st'.outbox[|st'.outbox| - 1].name)
      && st' == ShownAndPushed(st, d).(outbox := ShownAndPushed(st, d).outbox + [st'.outbox[|st'.outbox| - 1]])
    ensures Reacts(st, d, st')
  {
  }

  lemma OneOfThem(likes: map<Uid, seq<Name>>, name: Name)
    requires if Common(likes) == {} then name == "Error" else name in Common(likes)
    ensures Picks(likes, name)
  {
  }

  // What is in every list is what all users share.
  lemma AllLists(likes: map<Uid, seq<Name>>, lists: seq<set<Name>>, common: set<Name>)
    requires lists != [] && (forall u :: u in likes ==> (set name | name in likes[u]) in lists)
    requires forall t :: t in lists ==> exists u :: u in likes && t == set name | name in likes[u]
    requires forall name :: name in common <==> forall k :: 0 <= k < |lists| ==> name in lists[k]
    ensures common == Common(likes)
  {
    forall name | name in common ensures name in Common(likes) {
      forall w | w in likes ensures name in likes[w] {
        var k :| 0 <= k < |lists| && lists[k] == set n | n in likes[w];
        assert name in lists[k];
      }
      assert lists[0] in lists;
      var u :| u in likes && lists[0] == set n | n in likes[u];
      assert name in likes[u];
    }
    forall name | name in Common(likes) ensures name in common {
      forall k | 0 <= k < |lists| ensures name in lists[k] {
        assert lists[k] in lists;
        var u :| u in likes && lists[k] == set n | n in likes[u];
      }
    }
  }
}
