/** The asset registry and its audit journal: enrolment, lifecycle transitions, report imports and
    automatic quarantine, each one transaction. */
module AssetJournal {
  import opened Basics

  // ----- the lifecycle -----

  datatype AssetState = Discovered | PendingAudit | Compliant | NonCompliant | Quarantined | Decommissioned

  function Parse(name: string): Option<AssetState> {
    if name == "Discovered" then Some(Discovered)
    else if name == "PendingAudit" then Some(PendingAudit)
    else if name == "Compliant" then Some(Compliant)
    else if name == "NonCompliant" then Some(NonCompliant)
    else if name == "Quarantined" then Some(Quarantined)
    else if name == "Decommissioned" then Some(Decommissioned)
    else None
  }

  /** The adjacency matrix. */
  function Allowed(s: AssetState): set<AssetState> {
    match s
    case Discovered => {PendingAudit}
    case PendingAudit => {Compliant, NonCompliant, Quarantined}
    case Compliant => {NonCompliant, Quarantined, Decommissioned}
    case NonCompliant => {Compliant, Quarantined, Decommissioned}
    case Quarantined => {PendingAudit, Decommissioned}
    case Decommissioned => {}
  }

  // ----- registry and journal -----

  datatype Asset = Asset(hostname: string, ip: string, fingerprint: string, state: AssetState, score: int)

  datatype Audit =
    | EnrollAsset(asset: nat, initial: AssetState)
    | TransitionState(asset: nat, previous: AssetState, next: AssetState, scoreAt: int)
    | ImportReport(asset: nat, score: int)
    | UpdateFromReport(asset: nat, newScore: int)
    | AutomatedQuarantine(asset: nat, attempts: nat, oldScore: int, newScore: int)

  datatype Registry = Registry(assets: map<nat, Asset>, journal: seq<Audit>)

  const EMPTY := Registry(map[], [])

  /** An alert of the failed-login detector, after its agent was resolved to an asset. */
  datatype Alert = Alert(asset: nat, attempts: nat)

  /** The operations that write; `id` is the key the database would give to a new asset. */
  datatype Operation =
    | Enrol(id: nat, hostname: string, ip: string, fingerprint: string)
    | Transition(target: nat, name: string)
    | Import(id: nat, hostname: string, ip: string, fingerprint: string, score: int)
    | Quarantine(alerts: seq<Alert>)

  datatype Outcome = Done(asset: nat) | NotFound | Violation | IntegrityError | MultipleMatches

  /** The state a report's score puts its asset in. */
  function Verdict(score: int): AssetState { if score < 70 then NonCompliant else Compliant }

  /** The check constraint of the table. */
  predicate ScoreAllowed(score: int) { 0 <= score <= 100 }

  predicate FingerprintTaken(r: Registry, fingerprint: string) {
    exists a :: a in r.assets && r.assets[a].fingerprint == fingerprint
  }

  /** The assets a report may be about: same fingerprint or same hostname. */
  function Matches(r: Registry, hostname: string, fingerprint: string): set<nat> {
    set a | a in r.assets && (r.assets[a].fingerprint == fingerprint || r.assets[a].hostname == hostname)
  }

  /** One alert: an asset that is not yet quarantined is, and loses 30 points. */
  function QuarantineOne(r: Registry, a: Alert): Registry {
    if a.asset !in r.assets || r.assets[a.asset].state == Quarantined then r
    else
      var was := r.assets[a.asset];
      var now := was.(state := Quarantined, score := Max(0, was.score - 30));
      Registry(r.assets[a.asset := now], r.journal + [AutomatedQuarantine(a.asset, a.attempts, was.score, now.score)])
  }

  function QuarantineAll(r: Registry, alerts: seq<Alert>): Registry {
    if alerts == [] then r else QuarantineOne(QuarantineAll(r, alerts[..|alerts| - 1]), alerts[|alerts| - 1])
  }

  // ----- replaying the journal -----

  datatype Status = Status(state: AssetState, score: int)

  function ReplayOne(s: Option<Status>, e: Audit): Option<Status> {
    match e
    case EnrollAsset(_, initial) => Some(Status(initial, 0))
    case TransitionState(_, _, next, _) => if s.Some? then Some(Status(next, s.value.score)) else None
    case ImportReport(_, score) => Some(Status(Verdict(score), score))
    case UpdateFromReport(_, newScore) => Some(Status(Verdict(newScore), newScore))
    case AutomatedQuarantine(_, _, _, newScore) => Some(Status(Quarantined, newScore))
  }

  /** What the journal alone says about asset `a`. */
  function Replay(journal: seq<Audit>, a: nat): Option<Status> {
    if journal == [] then None
    else
      var before, last := Replay(journal[..|journal| - 1], a), journal[|journal| - 1];
      if last.asset == a then ReplayOne(before, last) else before
  }

  /** What the record claims about the past is what the journal before it says. */
  ghost predicate Sound(before: seq<Audit>, e: Audit) {
    var s := Replay(before, e.asset);
    match e
    case EnrollAsset(_, initial) => s == None && initial == Discovered
    case TransitionState(_, previous, next, scoreAt) => s == Some(Status(previous, scoreAt))
        && next in Allowed(previous)
    case ImportReport(_, score) => s == None && ScoreAllowed(score)
    case UpdateFromReport(_, newScore) => s.Some? && ScoreAllowed(newScore)
    case AutomatedQuarantine(_, attempts, oldScore, newScore) =>
      s.Some? && s.value.state != Quarantined && s.value.score == oldScore && newScore == Max(0, oldScore - 30)
  }

  ghost function StatusOf(r: Registry, a: nat): Option<Status> {
    if a in r.assets then Some(Status(r.assets[a].state, r.assets[a].score)) else None
  }

  ghost predicate Determined(r: Registry) {
    forall a :: Replay(r.journal, a) == StatusOf(r, a)
  }

  ghost predicate JournalSound(r: Registry) {
    forall k :: 0 <= k < |r.journal| ==> Sound(r.journal[..k], r.journal[k])
  }

  ghost predicate ScoresAllowed(r: Registry) {
    forall a :: a in r.assets ==> ScoreAllowed(r.assets[a].score)
  }

  ghost predicate FingerprintsUnique(r: Registry) {
    forall a, b :: a in r.assets && b in r.assets && r.assets[a].fingerprint == r.assets[b].fingerprint ==> a == b
  }

  ghost predicate Consistent(r: Registry) {
    Determined(r) && JournalSound(r) && ScoresAllowed(r) && FingerprintsUnique(r)
  }

  // ----- the repository -----

  class AssetRepository {
    var assets: map<nat, Asset>
    var journal: seq<Audit>

    constructor ()
      ensures Now() == EMPTY
    {
      assets, journal := map[], [];
    }

    function Now(): Registry
      reads this
    {
      Registry(assets, journal)
    }

    /** Enrols a discovered asset; its fingerprint must be new. */
    method CreateAsset(id: nat, hostname: string, ip: string, fingerprint: string) returns (outcome: Outcome)
      requires id !in assets
      modifies this
      ensures (Now(), outcome) == Perform(old(Now()), Enrol(id, hostname, ip, fingerprint))
    {
      if FingerprintTaken(Now(), fingerprint) {
        return IntegrityError;
      }
      assets := assets[id := Asset(hostname, ip, fingerprint, Discovered, 0)];
      journal := journal + [EnrollAsset(id, Discovered)];
      return Done(id);
    }

    /** Moves an asset along an arrow of the state matrix. */
    method TransitionAsset(target: nat, name: string) returns (outcome: Outcome)
      modifies this
      ensures (Now(), outcome) == Perform(old(Now()), Transition(target, name))
    {
      if target !in assets {
        return NotFound;
      }
      var asset := assets[target];
      var next := Parse(name);
      if next.None? || next.value !in Allowed(asset.state) {
        return Violation;
      }
      assets := assets[target := asset.(state := next.value)];
      journal := journal + [TransitionState(target, asset.state, next.value, asset.score)];
      return Done(target);
    }

    /** Creates or updates the asset a report is about. */
    method UpsertOfflineReport(id: nat, hostname: string, ip: string, fingerprint: string, score: int)
      returns (outcome: Outcome)
      requires id !in assets
      modifies this
      ensures (Now(), outcome) == Perform(old(Now()), Import(id, hostname, ip, fingerprint, score))
    {
      var matches := Matches(Now(), hostname, fingerprint);
      if |matches| > 1 {
        return MultipleMatches;
      }
      if !ScoreAllowed(score) {
        return IntegrityError;
      }
      if matches == {} {
        assets := assets[id := Asset(hostname, ip, fingerprint, Verdict(score), score)];
        journal := journal + [ImportReport(id, score)];
        return Done(id);
      }
      OnlyMember(matches);
      var a :| a in matches;
      var asset := assets[a];
      assets := assets[a := asset.(hostname := hostname, ip := ip, state := Verdict(score), score := score)];
      journal := journal + [UpdateFromReport(a, score)];
      return Done(a);
    }

    /** The quarantine part of the telemetry transaction. */
    method QuarantineAlerted(alerts: seq<Alert>)
      modifies this
      ensures Now() == QuarantineAll(old(Now()), alerts)
    {
      for i := 0 to |alerts|
        invariant Now() == QuarantineAll(old(Now()), alerts[..i])
      {
        assert alerts[..i + 1][..i] == alerts[..i];
        var alert := alerts[i];
        if alert.asset in assets && assets[alert.asset].state != Quarantined {
          var asset := assets[alert.asset];
          var newScore := Max(0, asset.score - 30);
          assets := assets[alert.asset := asset.(state := Quarantined, score := newScore)];
          journal := journal + [AutomatedQuarantine(alert.asset, alert.attempts, asset.score, newScore)];
        }
      }
      assert alerts[..|alerts|] == alerts;
    }
  }

  lemma {:induction false} OnlyMember(s: set<nat>)
    requires s != {} && |s| <= 1
    ensures forall a, b :: a in s && b in s ==> a == b
  {
    var a :| a in s;
    assert |s - {a}| == 0;
  }

  /** The member of a set that has only one. */
  function Single(s: set<nat>): nat
    requires s != {} && |s| <= 1
  {
    OnlyMember(s);
    var a :| a in s;
    a
  }

  // ----- the operations as functions -----

  /** One operation on the registry; whatever fails is rolled back. */
  function Perform(r: Registry, op: Operation): (Registry, Outcome) {
    match op
    case Enrol(id, hostname, ip, fingerprint) =>
      if FingerprintTaken(r, fingerprint) then (r, IntegrityError)
      else (Registry(r.assets[id := Asset(hostname, ip, fingerprint, Discovered, 0)],
                     r.journal + [EnrollAsset(id, Discovered)]), Done(id))
    case Transition(target, name) =>
      if target !in r.assets then (r, NotFound)
      else
        var asset, next := r.assets[target], Parse(name);
        if next.None? || next.value !in Allowed(asset.state) then (r, Violation)
        else (Registry(r.assets[target := asset.(state := next.value)],
                       r.journal + [TransitionState(target, asset.state, next.value, asset.score)]), Done(target))
    case Import(id, hostname, ip, fingerprint, score) =>
      var matches := Matches(r, hostname, fingerprint);
      if |matches| > 1 then (r, MultipleMatches)
      else if !ScoreAllowed(score) then (r, IntegrityError)
      else if matches == {} then
        (Registry(r.assets[id := Asset(hostname, ip, fingerprint, Verdict(score), score)],
                  r.journal + [ImportReport(id, score)]), Done(id))
      else
        var a := Single(matches);
        (Registry(r.assets[a := r.assets[a].(hostname := hostname, ip := ip, state := Verdict(score), score := score)],
                  r.journal + [UpdateFromReport(a, score)]), Done(a))
    case Quarantine(alerts) => (QuarantineAll(r, alerts), Done(0))
  }

  /** New assets get keys that are not in use. */
  predicate FreshId(r: Registry, op: Operation) {
    (op.Enrol? || op.Import?) ==> op.id !in r.assets
  }

  ghost predicate LegalRun(r: Registry, ops: seq<Operation>)
    decreases |ops|
  {
    ops == [] || (FreshId(r, ops[0]) && LegalRun(Perform(r, ops[0]).0, ops[1..]))
  }

  ghost function Run(r: Registry, ops: seq<Operation>): Registry
    decreases |ops|
  {
    if ops == [] then r else Run(Perform(r, ops[0]).0, ops[1..])
  }

  // ----- the journal determines the registry -----

  lemma {:induction false} ReplaySnoc(journal: seq<Audit>, e: Audit, b: nat)
    ensures Replay(journal + [e], b) == if e.asset == b then ReplayOne(Replay(journal, b), e) else Replay(journal, b)
  {
    assert (journal + [e])[..|journal|] == journal;
  }

  lemma {:induction false} JournalSoundSnoc(r: Registry, assets: map<nat, Asset>, e: Audit)
    requires JournalSound(r) && Sound(r.journal, e)
    ensures JournalSound(Registry(assets, r.journal + [e]))
  {
    var journal := r.journal + [e];
    forall k | 0 <= k < |journal| ensures Sound(journal[..k], journal[k]) {
      if k < |r.journal| {
        assert journal[..k] == r.journal[..k];
      } else {
        assert journal[..k] == r.journal;
      }
    }
  }

  /** One asset changes or appears, and one sound record says so. */
  lemma {:induction false} RecordedChange(r: Registry, a: nat, asset: Asset, e: Audit)
    requires Determined(r) && JournalSound(r) && ScoresAllowed(r)
    requires e.asset == a && Sound(r.journal, e) && ScoreAllowed(asset.score)
    requires ReplayOne(StatusOf(r, a), e) == Some(Status(asset.state, asset.score))
    ensures var t := Registry(r.assets[a := asset], r.journal + [e]);
            Determined(t) && JournalSound(t) && ScoresAllowed(t)
  {
    var t := Registry(r.assets[a := asset], r.journal + [e]);
    JournalSoundSnoc(r, t.assets, e);
    forall b ensures Replay(t.journal, b) == StatusOf(t, b) {
      ReplaySnoc(r.journal, e, b);
      assert Replay(r.journal, b) == StatusOf(r, b);
    }
  }

  lemma {:induction false} QuarantineOneConsistent(r: Registry, alert: Alert)
    requires Consistent(r)
    ensures Consistent(QuarantineOne(r, alert))
  {
    if alert.asset in r.assets && r.assets[alert.asset].state != Quarantined {
      var was := r.assets[alert.asset];
      var now := was.(state := Quarantined, score := Max(0, was.score - 30));
      assert Replay(r.journal, alert.asset) == StatusOf(r, alert.asset);
      RecordedChange(r, alert.asset, now, AutomatedQuarantine(alert.asset, alert.attempts, was.score, now.score));
    }
  }

  lemma {:induction false} QuarantineConsistent(r: Registry, alerts: seq<Alert>)
    requires Consistent(r)
    ensures Consistent(QuarantineAll(r, alerts))
  {
    if alerts != [] {
      QuarantineConsistent(r, alerts[..|alerts| - 1]);
      QuarantineOneConsistent(QuarantineAll(r, alerts[..|alerts| - 1]), alerts[|alerts| - 1]);
    }
  }

  lemma {:induction false} EnrolConsistent(r: Registry, op: Operation)
    requires Consistent(r) && FreshId(r, op) && op.Enrol?
    ensures Consistent(Perform(r, op).0)
  {
    if !FingerprintTaken(r, op.fingerprint) {
      assert Replay(r.journal, op.id) == StatusOf(r, op.id);
      RecordedChange(r, op.id, Asset(op.hostname, op.ip, op.fingerprint, Discovered, 0),
          EnrollAsset(op.id, Discovered));
    }
  }

  lemma {:induction false} TransitionConsistent(r: Registry, op: Operation)
    requires Consistent(r) && op.Transition?
    ensures Consistent(Perform(r, op).0)
  {
    if op.target in r.assets {
      var asset, next := r.assets[op.target], Parse(op.name);
      if next.Some? && next.value in Allowed(asset.state) {
        assert Replay(r.journal, op.target) == StatusOf(r, op.target);
        RecordedChange(r, op.target, asset.(state := next.value),
            TransitionState(op.target, asset.state, next.value, asset.score));
      }
    }
  }

  lemma {:induction false} ImportConsistent(r: Registry, op: Operation)
    requires Consistent(r) && FreshId(r, op) && op.Import?
    ensures Consistent(Perform(r, op).0)
  {
    var matches := Matches(r, op.hostname, op.fingerprint);
    if |matches| <= 1 && ScoreAllowed(op.score) {
      if matches == {} {
        assert Replay(r.journal, op.id) == StatusOf(r, op.id);
        RecordedChange(r, op.id, Asset(op.hostname, op.ip, op.fingerprint, Verdict(op.score), op.score),
            ImportReport(op.id, op.score));
        assert forall b :: b in r.assets ==> b !in matches;
      } else {
        var a := Single(matches);
        assert a in matches;
        assert Replay(r.journal, a) == StatusOf(r, a);
        RecordedChange(r, a, r.assets[a].(hostname := op.hostname, ip := op.ip, state := Verdict(op.score),
            score := op.score),
                       UpdateFromReport(a, op.score));
      }
    }
  }

  lemma {:induction false} PerformConsistent(r: Registry, op: Operation)
    requires Consistent(r) && FreshId(r, op)
    ensures Consistent(Perform(r, op).0)
  {
    match op {
      case Enrol(_, _, _, _) => EnrolConsistent(r, op);
      case Transition(_, _) => TransitionConsistent(r, op);
      case Import(_, _, _, _, _) => ImportConsistent(r, op);
      case Quarantine(alerts) => QuarantineConsistent(r, alerts);
    }
  }

  lemma {:induction false} RunConsistent(r: Registry, ops: seq<Operation>)
    requires Consistent(r) && LegalRun(r, ops)
    ensures Consistent(Run(r, ops))
    decreases |ops|
  {
    if ops != [] {
      PerformConsistent(r, ops[0]);
      RunConsistent(Perform(r, ops[0]).0, ops[1..]);
    }
  }

  /** After any run of operations the audit journal determines the registry: replaying it gives every
      asset's state and score and nothing else; every record agrees with the replay before it and every
      transition is an arrow of the matrix; scores stay within 0 and 100. */
  lemma {:induction false} JournalDeterminesRegistry(ops: seq<Operation>, r: Registry, a: nat)
    requires LegalRun(EMPTY, ops) && r == Run(EMPTY, ops)
    ensures Replay(r.journal, a) == StatusOf(r, a)
    ensures forall k :: 0 <= k < |r.journal| ==> Sound(r.journal[..k], r.journal[k])
    ensures a in r.assets ==> 0 <= r.assets[a].score <= 100
    ensures forall b :: a in r.assets && b in r.assets && r.assets[a].fingerprint == r.assets[b].fingerprint ==> a == b
  {
    assert Consistent(EMPTY);
    RunConsistent(EMPTY, ops);
  }

  // ----- what the operations do -----

  function NameOf(s: AssetState): string {
    match s
    case Discovered => "Discovered"
    case PendingAudit => "PendingAudit"
    case Compliant => "Compliant"
    case NonCompliant => "NonCompliant"
    case Quarantined => "Quarantined"
    case Decommissioned => "Decommissioned"
  }

  /** The twelve arrows by their names. */
  predicate Arrow(from: string, to: string) {
    || (from == "Discovered" && to == "PendingAudit")
    || (from == "PendingAudit" && to == "Compliant")
    || (from == "PendingAudit" && to == "NonCompliant")
    || (from == "PendingAudit" && to == "Quarantined")
    || (from == "Compliant" && to == "NonCompliant")
    || (from == "Compliant" && to == "Quarantined")
    || (from == "Compliant" && to == "Decommissioned")
    || (from == "NonCompliant" && to == "Compliant")
    || (from == "NonCompliant" && to == "Quarantined")
    || (from == "NonCompliant" && to == "Decommissioned")
    || (from == "Quarantined" && to == "PendingAudit")
    || (from == "Quarantined" && to == "Decommissioned")
  }

  lemma {:induction false} NamesParse(name: string)
    ensures Parse(name).Some? ==> NameOf(Parse(name).value) == name
    ensures forall s :: NameOf(s) == name ==> Parse(name) == Some(s)
  {
  }

  lemma {:induction false} ArrowIsAllowed(from: AssetState, to: AssetState)
    ensures Arrow(NameOf(from), NameOf(to)) <==> to in Allowed(from)
  {
  }

  lemma {:induction false} ArrowHasState(from: string, to: string)
    requires Arrow(from, to)
    ensures exists s :: NameOf(s) == to
  {
    var s := if to == "PendingAudit" then PendingAudit else if to == "Compliant" then Compliant
             else if to == "NonCompliant" then NonCompliant else if to == "Quarantined" then Quarantined
             else Decommissioned;
    assert NameOf(s) == to;
  }

  /** `t` is `r` after asset `a` got new values and one record was written. */
  ghost predicate OneChange(r: Registry, t: Registry, a: nat, e: Audit) {
    && t.assets.Keys == r.assets.Keys + {a} && t.journal == r.journal + [e]
    && forall b :: b in r.assets && b != a ==> t.assets[b] == r.assets[b]
  }

  /** A transition happens exactly along an arrow; then the asset has the named state, keeps the rest, and
      one record tells both states and the score.  Otherwise nothing changes. */
  lemma {:induction false} TransitionMeans(r: Registry, target: nat, name: string)
    ensures var t, outcome := Perform(r, Transition(target, name)).0, Perform(r, Transition(target, name)).1;
            if target !in r.assets then t == r && outcome == NotFound
            else if !Arrow(NameOf(r.assets[target].state), name) then t == r && outcome == Violation
            else
              var was := r.assets[target];
              && outcome == Done(target) && target in t.assets && NameOf(t.assets[target].state) == name
              && t.assets[target] == was.(state := t.assets[target].state)
              && OneChange(r, t, target, TransitionState(target, was.state, t.assets[target].state, was.score))
  {
    hide Parse, Allowed, NameOf, Arrow;
    NamesParse(name);
    if target in r.assets {
      var from := r.assets[target].state;
      if Arrow(NameOf(from), name) {
        ArrowHasState(NameOf(from), name);
        var s :| NameOf(s) == name;
        ArrowIsAllowed(from, s);
      } else if Parse(name).Some? {
        ArrowIsAllowed(from, Parse(name).value);
      }
    }
  }

  /** An enrolment succeeds exactly with a fingerprint that no asset has; the asset starts as discovered
      with score 0. */
  lemma {:induction false} EnrolMeans(r: Registry, id: nat, hostname: string, ip: string, fingerprint: string)
    requires id !in r.assets
    ensures var op := Enrol(id, hostname, ip, fingerprint);
            var t, outcome := Perform(r, op).0, Perform(r, op).1;
            if exists a :: a in r.assets && r.assets[a].fingerprint == fingerprint
            then t == r && outcome == IntegrityError
            else
              && outcome == Done(id) && OneChange(r, t, id, EnrollAsset(id, Discovered))
              && t.assets[id].hostname == hostname && t.assets[id].ip == ip
              && t.assets[id].fingerprint == fingerprint
              && NameOf(t.assets[id].state) == "Discovered" && t.assets[id].score == 0
  {
  }

  /** Asset `a` is one the report may be about. */
  predicate About(r: Registry, a: nat, hostname: string, fingerprint: string) {
    a in r.assets && (r.assets[a].hostname == hostname || r.assets[a].fingerprint == fingerprint)
  }

  /** A report about no asset creates one, and a report about exactly one moves its hostname, address, score
      and state and keeps its fingerprint; from 70 points on the state is compliant.  Two candidates, or a
      score outside 0 to 100, change nothing. */
  lemma {:induction false} ImportMeans(r: Registry, id: nat, hostname: string, ip: string, fingerprint: string,
      score: int)
    requires id !in r.assets
    ensures var op := Import(id, hostname, ip, fingerprint, score);
            var t, outcome := Perform(r, op).0, Perform(r, op).1;
            if exists a, b :: a != b && About(r, a, hostname, fingerprint) && About(r, b, hostname, fingerprint)
            then t == r && outcome == MultipleMatches
            else if !(0 <= score <= 100) then t == r && outcome == IntegrityError
            else
              && outcome.Done? && outcome.asset in t.assets
              && var a := outcome.asset;
                 var now := t.assets[a];
                 && now.hostname == hostname && now.ip == ip && now.score == score
                 && NameOf(now.state) == (if score >= 70 then "Compliant" else "NonCompliant")
                 && (if a in r.assets
                     then About(r, a, hostname, fingerprint) && now.fingerprint == r.assets[a].fingerprint
                          && OneChange(r, t, a, UpdateFromReport(a, score))
                     else a == id && now.fingerprint == fingerprint && OneChange(r, t, a, ImportReport(a, score))
                          && forall b :: !About(r, b, hostname, fingerprint))
  {
    TwoMembers(Matches(r, hostname, fingerprint));
    assert forall a :: a in Matches(r, hostname, fingerprint) <==> About(r, a, hostname, fingerprint);
  }

  lemma {:induction false} TwoMembers(s: set<nat>)
    ensures |s| > 1 <==> exists a, b :: a != b && a in s && b in s
  {
    if a, b :| a != b && a in s && b in s {
      assert |s - {a} - {b}| == |s| - 2;
    } else if s != {} {
      var a :| a in s;
      assert s == {a};
    }
  }

  // ----- what the state matrix does not govern -----

  /** One of the alerts is about asset `a`. */
  predicate Named(alerts: seq<Alert>, a: nat) { exists i :: 0 <= i < |alerts| && alerts[i].asset == a }

  lemma {:induction false} NamedSnoc(alerts: seq<Alert>, last: Alert, a: nat)
    ensures Named(alerts + [last], a) <==> Named(alerts, a) || last.asset == a
  {
    var all := alerts + [last];
    if Named(alerts, a) {
      var i :| 0 <= i < |alerts| && alerts[i].asset == a;
      assert all[i].asset == a;
    }
    assert all[|alerts|] == last;
  }

  /** An alerted asset that is not quarantined yet is, and loses 30 points down to zero; nothing else of it
      changes, and nothing of the other assets. */
  lemma {:induction false} QuarantineTouches(r: Registry, alerts: seq<Alert>, a: nat)
    ensures a in QuarantineAll(r, alerts).assets <==> a in r.assets
    ensures a in r.assets ==>
              var was := r.assets[a];
              QuarantineAll(r, alerts).assets[a] ==
                if Named(alerts, a) && !was.state.Quarantined?
                then was.(state := Quarantined, score := if was.score >= 30 then was.score - 30 else 0) else was
  {
    if alerts != [] {
      var init, last := alerts[..|alerts| - 1], alerts[|alerts| - 1];
      QuarantineTouches(r, init, a);
      NamedSnoc(init, last, a);
      assert alerts == init + [last];
    }
  }

  /** The journal records each quarantine once, with the attempts of the first alert about the asset. */
  lemma {:induction false} QuarantineIsRecorded(r: Registry, alerts: seq<Alert>, i: nat)
    requires i < |alerts| && alerts[i].asset in r.assets && !r.assets[alerts[i].asset].state.Quarantined?
    requires !Named(alerts[..i], alerts[i].asset)
    ensures var was := r.assets[alerts[i].asset];
            AutomatedQuarantine(alerts[i].asset, alerts[i].attempts, was.score,
                if was.score >= 30 then was.score - 30 else 0) in QuarantineAll(r, alerts).journal
  {
    var init, last := alerts[..|alerts| - 1], alerts[|alerts| - 1];
    if i < |init| {
      assert init[..i] == alerts[..i];
      QuarantineIsRecorded(r, init, i);
    } else {
      assert alerts[..i] == init;
      QuarantineTouches(r, init, last.asset);
    }
  }

  /** The state matrix binds only transitions.  A state changes outside of it exactly in two ways: an
      import settles on an asset that is discovered, quarantined or decommissioned, or an alert names one
      that is discovered or decommissioned. */
  lemma {:induction false} BypassesMatrixIff(r: Registry, op: Operation, a: nat)
    requires FreshId(r, op) && a in r.assets
    ensures a in Perform(r, op).0.assets
    ensures var was, now := r.assets[a].state, Perform(r, op).0.assets[a].state;
            now != was && now !in Allowed(was) <==>
              || (op.Import? && ScoreAllowed(op.score) && Matches(r, op.hostname, op.fingerprint) == {a}
                  && (was == Discovered || was == Quarantined || was == Decommissioned))
              || (op.Quarantine? && Named(op.alerts, a) && (was == Discovered || was == Decommissioned))
  {
    match op {
      case Quarantine(alerts) => QuarantineTouches(r, alerts, a);
      case Import(_, hostname, _, fingerprint, _) =>
        var matches := Matches(r, hostname, fingerprint);
        if matches != {} && |matches| <= 1 {
          OnlyMember(matches);
          assert matches == {Single(matches)};
        }
        if matches == {a} { assert |matches| == 1; }
      case Enrol(_, _, _, _) =>
      case Transition(_, _) =>
    }
  }

  /** Decommissioned, which the matrix makes final, is left exactly in these two ways. */
  lemma {:induction false} LeavesDecommissionedIff(r: Registry, op: Operation, a: nat)
    requires FreshId(r, op) && a in r.assets && r.assets[a].state == Decommissioned
    ensures a in Perform(r, op).0.assets
    ensures Perform(r, op).0.assets[a].state != Decommissioned <==>
            || (op.Import? && ScoreAllowed(op.score) && Matches(r, op.hostname, op.fingerprint) == {a})
            || (op.Quarantine? && Named(op.alerts, a))
  {
    BypassesMatrixIff(r, op, a);
  }

  /** With enrolments and transitions only, Decommissioned is absorbing over every run. */
  lemma {:induction false} DecommissionedAbsorbing(r: Registry, ops: seq<Operation>, a: nat)
    requires LegalRun(r, ops) && a in r.assets && r.assets[a].state == Decommissioned
    requires forall i :: 0 <= i < |ops| ==> ops[i].Enrol? || ops[i].Transition?
    ensures a in Run(r, ops).assets && Run(r, ops).assets[a].state == Decommissioned
    decreases |ops|
  {
    if ops != [] {
      LeavesDecommissionedIff(r, ops[0], a);
      DecommissionedAbsorbing(Perform(r, ops[0]).0, ops[1..], a);
    }
  }
}
