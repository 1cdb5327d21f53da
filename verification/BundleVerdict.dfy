/** What the correlation of a bundle finds, said in the fields of the file summaries alone. */
module BundleVerdict {
  import opened Basics
  import opened Strings
  import opened BundleCorrelation

  /** The file carries the value as an identity of this kind. */
  predicate Carries(f: File, k: Kind, v: string) {
    match k
    case JobSessionId => "jobsessionid" in f.ids && f.ids["jobsessionid"] == v && v != ""
    case JobId => "jobid" in f.ids && f.ids["jobid"] == v && v != ""
    case ResourcePath => v in f.resources
    case VmIdentity => "vm" in f.ids && f.ids["vm"] == v && v != ""
    case SnapshotId => "snapshot_id" in f.ids && f.ids["snapshot_id"] == v && v != ""
    case SignaturePhrase => v in f.signatures
  }

  /** Two files of different names carry it. */
  ghost predicate InTwoFiles(files: seq<File>, k: Kind, v: string) {
    exists f, g :: f in files && g in files && f.name != g.name && Carries(f, k, v) && Carries(g, k, v)
  }

  /** `t` lies within 300 seconds of the window of the file. */
  predicate Surrounds(f: File, t: int) {
    && f.timeMin.Some? && f.timeMax.Some?
    && f.timeMin.value - 300000000 <= t <= f.timeMax.value + 300000000
  }

  ghost predicate AllSurround(files: seq<File>, k: Kind, v: string, t: int) {
    forall f :: f in files && Carries(f, k, v) ==> Surrounds(f, t)
  }

  /** All files that carry it have a window, in one clock, and one instant lies in or near all of them. */
  ghost predicate AtOnce(files: seq<File>, k: Kind, v: string) {
    && (forall f :: f in files && Carries(f, k, v) ==> f.timeMin.Some? && f.timeMax.Some? && f.clock != "")
    && (forall f, g :: f in files && g in files && Carries(f, k, v) && Carries(g, k, v) ==> f.clock == g.clock)
    && (exists t :: AllSurround(files, k, v, t))
  }

  lemma {:induction false} CarriesIff(f: File, k: Kind, v: string)
    ensures Holds(f, k, v) <==> Carries(f, k, v)
  {
  }

  lemma {:induction false} SharedIff(files: seq<File>, k: Kind, v: string)
    ensures Shared(files, k, v) <==> InTwoFiles(files, k, v)
  {
    forall f ensures Holds(f, k, v) <==> Carries(f, k, v) { CarriesIff(f, k, v); }
    hide Holds, Carries;
  }

  lemma {:induction false} NearIsCompatible(f: File, g: File, t: int)
    requires Surrounds(f, t) && Surrounds(g, t) && f.clock == g.clock != ""
    ensures Compatible(f, g)
  {
  }

  lemma {:induction false} VerifiedClocks(files: seq<File>, k: Kind, v: string, f: File, g: File)
    requires Verified(files, k, v) && f in files && g in files && Holds(f, k, v) && Holds(g, k, v)
    ensures f.timeMin.Some? && f.timeMax.Some? && f.clock != "" && f.clock == g.clock
  {
    if f != g {
      assert TwoEntries(files, f, g);
      assert Compatible(f, g);
    }
  }

  lemma {:induction false} VerifiedAtOnce(files: seq<File>, k: Kind, v: string)
    requires Shared(files, k, v) && Verified(files, k, v)
    ensures AtOnce(files, k, v)
  {
    var t := CommonInstant(files, k, v);
    forall f | f in files && Carries(f, k, v) ensures Surrounds(f, t) && f.clock != "" { CarriesIff(f, k, v); }
    forall f, g | f in files && g in files && Carries(f, k, v) && Carries(g, k, v) ensures f.clock == g.clock {
      CarriesIff(f, k, v);
      CarriesIff(g, k, v);
      VerifiedClocks(files, k, v, f, g);
    }
    hide Carries;
    assert AllSurround(files, k, v, t);
  }

  lemma {:induction false} AtOnceVerified(files: seq<File>, k: Kind, v: string)
    requires AtOnce(files, k, v)
    ensures Verified(files, k, v)
  {
    forall f ensures Holds(f, k, v) <==> Carries(f, k, v) { CarriesIff(f, k, v); }
    hide Holds, Carries, Compatible;
    var t :| AllSurround(files, k, v, t);
    forall f, g | TwoEntries(files, f, g) && Holds(f, k, v) && Holds(g, k, v) ensures Compatible(f, g) {
      NearIsCompatible(f, g, t);
    }
  }

  /** Comparing windows in pairs decides whether all of them come near one instant. */
  lemma {:induction false} VerifiedIff(files: seq<File>, k: Kind, v: string)
    requires Shared(files, k, v)
    ensures Verified(files, k, v) <==> AtOnce(files, k, v)
  {
    hide *;
    if Verified(files, k, v) {
      VerifiedAtOnce(files, k, v);
    } else if AtOnce(files, k, v) {
      AtOnceVerified(files, k, v);
    }
  }

  // ----- the confidence -----

  ghost predicate SameJob(files: seq<File>) {
    exists v :: InTwoFiles(files, JobSessionId, v) || InTwoFiles(files, JobId, v)
  }

  ghost predicate SameResource(files: seq<File>, v: string) {
    InTwoFiles(files, ResourcePath, v) || InTwoFiles(files, VmIdentity, v) || InTwoFiles(files, SnapshotId, v)
  }

  ghost predicate SameResourceAtOnce(files: seq<File>, v: string) {
    || (InTwoFiles(files, ResourcePath, v) && AtOnce(files, ResourcePath, v))
    || (InTwoFiles(files, VmIdentity, v) && AtOnce(files, VmIdentity, v))
    || (InTwoFiles(files, SnapshotId, v) && AtOnce(files, SnapshotId, v))
  }

  lemma {:induction false} LinksMean(files: seq<File>)
    ensures StronglyLinked(files) <==> SameJob(files)
    ensures MediumLinked(files) <==> exists v :: SameResourceAtOnce(files, v)
    ensures ResourceLinked(files) <==> exists v :: SameResource(files, v)
    ensures SignatureLinked(files) <==> exists v :: InTwoFiles(files, SignaturePhrase, v)
  {
    hide Shared, InTwoFiles, Verified, AtOnce, SameResource, SameResourceAtOnce, ResourceLinked, MediumLinked;
    forall k, v ensures Shared(files, k, v) <==> InTwoFiles(files, k, v) { SharedIff(files, k, v); }
    forall k, v | Shared(files, k, v) ensures Verified(files, k, v) <==> AtOnce(files, k, v) {
      VerifiedIff(files, k, v);
    }
    MediumMeans(files);
    ResourceMeans(files);
  }

  lemma {:induction false} MediumMeans(files: seq<File>)
    requires forall k, v :: Shared(files, k, v) <==> InTwoFiles(files, k, v)
    requires forall k, v :: Shared(files, k, v) ==> (Verified(files, k, v) <==> AtOnce(files, k, v))
    ensures MediumLinked(files) <==> exists v :: SameResourceAtOnce(files, v)
  {
    hide Shared, InTwoFiles, Verified, AtOnce;
    if MediumLinked(files) {
      var k, v :| IsResourceKind(k) && Shared(files, k, v) && Verified(files, k, v);
      assert SameResourceAtOnce(files, v);
    }
    if v :| SameResourceAtOnce(files, v) {
      var k := if InTwoFiles(files, ResourcePath, v) && AtOnce(files, ResourcePath, v) then ResourcePath
               else if InTwoFiles(files, VmIdentity, v) && AtOnce(files, VmIdentity, v) then VmIdentity else SnapshotId;
      assert IsResourceKind(k) && Shared(files, k, v) && Verified(files, k, v);
    }
  }

  lemma {:induction false} ResourceMeans(files: seq<File>)
    requires forall k, v :: Shared(files, k, v) <==> InTwoFiles(files, k, v)
    ensures ResourceLinked(files) <==> exists v :: SameResource(files, v)
  {
    hide Shared, InTwoFiles;
    if ResourceLinked(files) {
      var k, v :| IsResourceKind(k) && Shared(files, k, v);
      assert SameResource(files, v);
    }
    if v :| SameResource(files, v) {
      var k := if InTwoFiles(files, ResourcePath, v) then ResourcePath
               else if InTwoFiles(files, VmIdentity, v) then VmIdentity else SnapshotId;
      assert IsResourceKind(k) && Shared(files, k, v);
    }
  }

  /** Strong with a common job session or job id; else medium with a common path, machine or snapshot whose
      files come near one instant; else weak with any of these or a common signature; else nothing. */
  lemma {:induction false} ConfidenceMeans(files: seq<File>)
    ensures Ladder(files) ==
            if SameJob(files) then Strong
            else if exists v :: SameResourceAtOnce(files, v) then Medium
            else if exists v :: SameResource(files, v) || InTwoFiles(files, SignaturePhrase, v) then Weak
            else Unrelated
  {
    LinksMean(files);
    hide SameJob, SameResource, SameResourceAtOnce, InTwoFiles, StronglyLinked, MediumLinked, ResourceLinked,
        SignatureLinked;
  }

  // ----- the reasons -----

  /** The names of the files that carry it, each once, in order. */
  ghost predicate AreCarriers(names: seq<string>, files: seq<File>, k: Kind, v: string) {
    && (forall n :: n in names <==> exists f :: f in files && f.name == n && Carries(f, k, v))
    && (forall i, j :: 0 <= i < j < |names| ==> names[i] != names[j] && StringLe(names[i], names[j]))
  }

  lemma {:induction false} CarriersIff(names: seq<string>, files: seq<File>, k: Kind, v: string)
    ensures names == SortedSet(Names(files, k, v)) <==> AreCarriers(names, files, k, v)
  {
    forall f ensures Holds(f, k, v) <==> Carries(f, k, v) { CarriesIff(f, k, v); }
    hide Holds, Carries;
    if AreCarriers(names, files, k, v) {
      ListUnique(names, SortedSet(Names(files, k, v)), Names(files, k, v));
    }
  }

  ghost predicate IsLink(r: Reason) { r.StrongLink? || r.MediumLink? || r.WeakLink? }

  /** The reasons of one kind: one for each value that two files carry, naming just these files. */
  lemma {:induction false} KindReasonIff(files: seq<File>, k: Kind, r: Reason)
    ensures r in KindReasons(files, k) <==>
              && IsLink(r) && r.kind == k && InTwoFiles(files, k, r.value)
              && AreCarriers(r.names, files, k, r.value)
              && (r.StrongLink? <==> IsStrongKind(k))
              && (r.MediumLink? <==> IsResourceKind(k) && AtOnce(files, k, r.value))
  {
    hide InTwoFiles, AtOnce, Shared, Verified, AreCarriers, Names;
    if r in KindReasons(files, k) {
      var v := ReasonOrigin(files, k, r);
    }
    if IsLink(r) {
      SharedIff(files, k, r.value);
      CarriersIff(r.names, files, k, r.value);
      if Shared(files, k, r.value) {
        SharedRecorded(files, k, r.value);
        VerifiedIff(files, k, r.value);
      }
    }
  }

  /** Which reasons are given, and none besides. */
  lemma {:induction false} ReasonsMean(files: seq<File>, r: Reason)
    ensures |files| < 2 ==> (r in Reasons(files) <==> r == SingleFile)
    ensures |files| >= 2 ==>
              (r in Reasons(files) <==>
                 match r
                 case SingleFile => false
                 case StrongLink(k, v, names) =>
                   (k.JobSessionId? || k.JobId?) && InTwoFiles(files, k, v) && AreCarriers(names, files, k, v)
                 case MediumLink(k, v, names) =>
                   && !SameJob(files) && (k.ResourcePath? || k.VmIdentity? || k.SnapshotId?)
                   && InTwoFiles(files, k, v) && AtOnce(files, k, v) && AreCarriers(names, files, k, v)
                 case WeakLink(k, v, names) =>
                   && !SameJob(files) && InTwoFiles(files, k, v) && AreCarriers(names, files, k, v)
                   && (if k.SignaturePhrase? then forall w :: !SameResource(files, w)
                       else (k.ResourcePath? || k.VmIdentity? || k.SnapshotId?) && !AtOnce(files, k, v))
                 case NoLink =>
                   !SameJob(files) && forall w :: !SameResource(files, w) && !InTwoFiles(files, SignaturePhrase, w)
                 case NotCausal =>
                   && !SameJob(files) && (forall w :: !SameResourceAtOnce(files, w))
                   && exists w :: SameResource(files, w) || InTwoFiles(files, SignaturePhrase, w))
  {
    LinksMean(files);
    KindReasonIff(files, JobSessionId, r);
    KindReasonIff(files, JobId, r);
    KindReasonIff(files, ResourcePath, r);
    KindReasonIff(files, VmIdentity, r);
    KindReasonIff(files, SnapshotId, r);
    KindReasonIff(files, SignaturePhrase, r);
    hide InTwoFiles, AtOnce, AreCarriers, StronglyLinked, MediumLinked, ResourceLinked, SignatureLinked, KindReasons;
    assert forall w :: SameResourceAtOnce(files, w) ==> SameResource(files, w);
    match r {
      case SingleFile =>
      case StrongLink(k, v, _) =>
        assert InTwoFiles(files, k, v) && IsStrongKind(k) ==> SameJob(files);
      case MediumLink(k, v, _) =>
        assert InTwoFiles(files, k, v) && IsResourceKind(k) && AtOnce(files, k, v) ==> SameResourceAtOnce(files, v);
      case WeakLink(k, v, _) =>
        assert InTwoFiles(files, k, v) && IsResourceKind(k) ==> SameResource(files, v);
      case NoLink =>
      case NotCausal =>
    }
  }

  function Place(k: Kind): nat {
    match k
    case JobSessionId => 0
    case JobId => 1
    case ResourcePath => 2
    case VmIdentity => 3
    case SnapshotId => 4
    case SignaturePhrase => 5
  }

  /** Kind by kind, and by value in one kind; what is not a link comes last. */
  ghost predicate StandsBefore(a: Reason, b: Reason) {
    && IsLink(a)
    && (IsLink(b) ==>
          Place(a.kind) < Place(b.kind) || (a.kind == b.kind && a.value != b.value && StringLe(a.value, b.value)))
  }

  ghost predicate InPlace(rs: seq<Reason>) { forall i, j :: 0 <= i < j < |rs| ==> StandsBefore(rs[i], rs[j]) }

  lemma {:induction false} InPlaceConcat(a: seq<Reason>, b: seq<Reason>)
    requires InPlace(a) && InPlace(b) && forall r, s :: r in a && s in b ==> StandsBefore(r, s)
    ensures InPlace(a + b)
  {
    hide StandsBefore;
    var all := a + b;
    forall i, j | 0 <= i < j < |all| ensures StandsBefore(all[i], all[j]) {
      if j < |a| {
        assert all[i] == a[i] && all[j] == a[j];
      } else if i < |a| {
        assert all[i] == a[i] && all[j] == b[j - |a|] && a[i] in a && b[j - |a|] in b;
      } else {
        assert all[i] == b[i - |a|] && all[j] == b[j - |a|];
      }
    }
  }

  lemma {:induction false} VerdictPlaces(files: seq<File>, k: Kind, v: string, w: string)
    requires StringLe(v, w) && v != w
    ensures StandsBefore(Verdict(files, k, v), Verdict(files, k, w))
  {
  }

  lemma {:induction false} VerdictsInPlace(files: seq<File>, k: Kind, vs: seq<string>)
    requires forall i, j :: 0 <= i < j < |vs| ==> StringLe(vs[i], vs[j]) && vs[i] != vs[j]
    ensures InPlace(Verdicts(files, k, vs))
  {
    if vs != [] {
      var init, last := vs[..|vs| - 1], vs[|vs| - 1];
      VerdictsInPlace(files, k, init);
      forall r | r in Verdicts(files, k, init) ensures StandsBefore(r, Verdict(files, k, last)) {
        var v := VerdictOrigin(files, k, init, r);
        var i :| 0 <= i < |init| && init[i] == v;
        assert vs[i] == v;
        VerdictPlaces(files, k, v, last);
        hide *;
      }
      hide InPlace, StandsBefore, Verdict, Shared;
      assert InPlace([Verdict(files, k, last)]) by { OneInPlace(Verdict(files, k, last)); }
      if Shared(files, k, last) {
        InPlaceConcat(Verdicts(files, k, init), [Verdict(files, k, last)]);
      }
    }
  }

  lemma {:induction false} OneInPlace(r: Reason)
    ensures InPlace([r])
  {
  }

  lemma {:induction false} KindInPlace(files: seq<File>, k: Kind)
    ensures InPlace(KindReasons(files, k))
    ensures forall r :: r in KindReasons(files, k) ==> IsLink(r) && r.kind == k
  {
    VerdictsInPlace(files, k, SortedSet(AllValues(files, k)));
    forall r | r in KindReasons(files, k) ensures IsLink(r) && r.kind == k {
      var v := ReasonOrigin(files, k, r);
    }
  }

  /** The reasons come kind by kind, the values of a kind in order, none of them twice. */
  lemma {:induction false} ReasonsInPlace(files: seq<File>)
    ensures InPlace(Reasons(files))
  {
    OneInPlace(SingleFile);
    forall k ensures InPlace(KindReasons(files, k)) { KindInPlace(files, k); }
    forall k, r | r in KindReasons(files, k) ensures IsLink(r) && r.kind == k { KindInPlace(files, k); }
    hide KindReasons, Ladder, InPlace;
    var paths, vms, snapshots := KindReasons(files, ResourcePath), KindReasons(files, VmIdentity),
      KindReasons(files, SnapshotId);
    InPlaceConcat(KindReasons(files, JobSessionId), KindReasons(files, JobId));
    InPlaceConcat(paths, vms);
    InPlaceConcat(paths + vms, snapshots);
    OneInPlace(NotCausal);
    OneInPlace(NoLink);
    InPlaceConcat(ResourceReasons(files), [NotCausal]);
    InPlaceConcat(KindReasons(files, SignaturePhrase), [NotCausal]);
  }

  /** The sources are the files named in the reasons; with nothing found they are all files in order. */
  lemma {:induction false} SourcesMean(files: seq<File>, n: string)
    requires |files| >= 2
    ensures n in Mentioned(Reasons(files)) <==> exists r :: r in Reasons(files) && IsLink(r) && n in r.names
    ensures |AllNames(files)| == |files| && forall i :: 0 <= i < |files| ==> AllNames(files)[i] == files[i].name
  {
  }
}
