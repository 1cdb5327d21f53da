/** Cross-file correlation of an evidence bundle: the loops that group files by shared identities,
    and the ladder strong / medium / weak / none that they compute. */
module BundleCorrelation {
  import opened Basics
  import opened Strings

  /** What the summary of one file contributes.  `resources` are its correlation-grade paths, display
      only locations already set aside; the window is absent when no clock domain is unique.  Times
      are microseconds. */
  datatype File = File(name: string, ids: map<string, string>, signatures: seq<string>, resources: seq<string>,
                       timeMin: Option<int>, timeMax: Option<int>, clock: string)

  const EPSILON := 300 * 1000000

  datatype Kind = JobSessionId | JobId | ResourcePath | VmIdentity | SnapshotId | SignaturePhrase

  datatype Confidence = Unrelated | Weak | Medium | Strong

  /** The recorded reasons, as values instead of sentences. */
  datatype Reason =
    | SingleFile
    | StrongLink(kind: Kind, value: string, names: seq<string>)
    | MediumLink(kind: Kind, value: string, names: seq<string>)
    | WeakLink(kind: Kind, value: string, names: seq<string>)
    | NoLink
    | NotCausal

  predicate IsStrongKind(k: Kind) { k.JobSessionId? || k.JobId? }

  predicate IsResourceKind(k: Kind) { k.ResourcePath? || k.VmIdentity? || k.SnapshotId? }

  // ----- what files share -----

  function Id(f: File, key: string): seq<string> {
    if key in f.ids && f.ids[key] != "" then [f.ids[key]] else []
  }

  function Values(f: File, k: Kind): seq<string> {
    match k
    case JobSessionId => Id(f, "jobsessionid")
    case JobId => Id(f, "jobid")
    case ResourcePath => f.resources
    case VmIdentity => Id(f, "vm")
    case SnapshotId => Id(f, "snapshot_id")
    case SignaturePhrase => f.signatures
  }

  predicate Holds(f: File, k: Kind, v: string) { v in Values(f, k) }

  function AllValues(files: seq<File>, k: Kind): set<string> {
    set f, v | f in files && v in Values(f, k) :: v
  }

  /** The names of the files that hold the value. */
  function Names(files: seq<File>, k: Kind, v: string): set<string> {
    set f | f in files && Holds(f, k, v) :: f.name
  }

  /** Two differently named files hold the value. */
  ghost predicate Shared(files: seq<File>, k: Kind, v: string) {
    exists f, g :: f in files && g in files && Holds(f, k, v) && Holds(g, k, v) && f.name != g.name
  }

  // ----- time windows -----

  predicate Timed(f: File) { f.timeMin.Some? && f.timeMax.Some? && f.clock != "" }

  predicate WindowsOverlap(a: File, b: File)
    requires Timed(a) && Timed(b)
  {
    Max(a.timeMin.value, b.timeMin.value) - EPSILON <= Min(a.timeMax.value, b.timeMax.value) + EPSILON
  }

  predicate Compatible(a: File, b: File) {
    Timed(a) && Timed(b) && a.clock == b.clock && WindowsOverlap(a, b)
  }

  /** `f` and `g` are two entries of the bundle, possibly with equal contents. */
  ghost predicate TwoEntries(files: seq<File>, f: File, g: File) {
    f in files && g in files && (f != g || multiset(files)[f] > 1)
  }

  /** All holders are timed, in one clock domain, with pairwise overlapping windows. */
  ghost predicate Verified(files: seq<File>, k: Kind, v: string) {
    && (forall f :: f in files && Holds(f, k, v) ==> Timed(f))
    && (forall f, g :: TwoEntries(files, f, g) && Holds(f, k, v) && Holds(g, k, v) ==> Compatible(f, g))
  }

  // ----- the ladder -----

  ghost predicate StronglyLinked(files: seq<File>) {
    exists k, v :: IsStrongKind(k) && Shared(files, k, v)
  }

  ghost predicate MediumLinked(files: seq<File>) {
    exists k, v :: IsResourceKind(k) && Shared(files, k, v) && Verified(files, k, v)
  }

  ghost predicate ResourceLinked(files: seq<File>) {
    exists k, v :: IsResourceKind(k) && Shared(files, k, v)
  }

  ghost predicate SignatureLinked(files: seq<File>) {
    exists v :: Shared(files, SignaturePhrase, v)
  }

  ghost function Ladder(files: seq<File>): Confidence {
    if StronglyLinked(files) then Strong
    else if MediumLinked(files) then Medium
    else if ResourceLinked(files) || SignatureLinked(files) then Weak
    else Unrelated
  }

  // ----- the reasons -----

  ghost function Verdict(files: seq<File>, k: Kind, v: string): Reason {
    var names := SortedSet(Names(files, k, v));
    if IsStrongKind(k) then StrongLink(k, v, names)
    else if IsResourceKind(k) && Verified(files, k, v) then MediumLink(k, v, names)
    else WeakLink(k, v, names)
  }

  /** One reason for each shared value of `vs`, in the order of `vs`. */
  ghost function Verdicts(files: seq<File>, k: Kind, vs: seq<string>): seq<Reason> {
    if vs == [] then []
    else
      var v := vs[|vs| - 1];
      Verdicts(files, k, vs[..|vs| - 1]) + if Shared(files, k, v) then [Verdict(files, k, v)] else []
  }

  ghost function KindReasons(files: seq<File>, k: Kind): seq<Reason> {
    Verdicts(files, k, SortedSet(AllValues(files, k)))
  }

  ghost function StrongReasons(files: seq<File>): seq<Reason> {
    KindReasons(files, JobSessionId) + KindReasons(files, JobId)
  }

  ghost function ResourceReasons(files: seq<File>): seq<Reason> {
    KindReasons(files, ResourcePath) + KindReasons(files, VmIdentity) + KindReasons(files, SnapshotId)
  }

  /** The reasons that go with confidence `c`, reached by resources or by signatures. */
  ghost function ReasonsFor(files: seq<File>, c: Confidence, byResource: bool): seq<Reason> {
    match c
    case Strong => StrongReasons(files)
    case Medium => ResourceReasons(files)
    case Weak => (if byResource then ResourceReasons(files) else KindReasons(files, SignaturePhrase)) + [NotCausal]
    case Unrelated => [NoLink]
  }

  ghost function Reasons(files: seq<File>): seq<Reason> {
    if |files| < 2 then [SingleFile] else ReasonsFor(files, Ladder(files), ResourceLinked(files))
  }

  /** The file names that the reasons mention. */
  ghost function Mentioned(rs: seq<Reason>): set<string> {
    set r, n | r in rs && (r.StrongLink? || r.MediumLink? || r.WeakLink?) && n in r.names :: n
  }

  /** How a reason moves the confidence reached so far. */
  function Raise(c: Confidence, r: Reason): Confidence {
    if r.StrongLink? then Strong
    else if r.MediumLink? then Medium
    else if r.WeakLink? && c.Unrelated? then Weak
    else c
  }

  function RaiseAll(c: Confidence, rs: seq<Reason>): Confidence {
    if rs == [] then c else Raise(RaiseAll(c, rs[..|rs| - 1]), rs[|rs| - 1])
  }

  lemma {:induction false} RaiseAllConcat(c: Confidence, a: seq<Reason>, b: seq<Reason>)
    ensures RaiseAll(c, a + b) == RaiseAll(RaiseAll(c, a), b)
  {
    if b == [] {
      assert a + b == a;
    } else {
      RaiseAllConcat(c, a, b[..|b| - 1]);
      assert (a + b)[..|a + b| - 1] == a + b[..|b| - 1];
    }
  }

  /** Without strong links: medium if some reason is, else weak if there is any. */
  lemma {:induction false} RaiseAllMeaning(c: Confidence, rs: seq<Reason>)
    requires forall r :: r in rs ==> r.MediumLink? || r.WeakLink?
    ensures RaiseAll(c, rs) ==
            if exists r :: r in rs && r.MediumLink? then Medium
            else if rs != [] && c.Unrelated? then Weak
            else c
  {
    if rs != [] {
      var init, last := rs[..|rs| - 1], rs[|rs| - 1];
      assert rs == init + [last];
      RaiseAllMeaning(c, init);
      assert last in rs;
      assert forall r :: r in rs <==> r in init || r == last;
      if init == [] { assert RaiseAll(c, init) == c; }
    }
  }

  lemma {:induction false} RaiseAllStrong(c: Confidence, rs: seq<Reason>)
    requires forall r :: r in rs ==> r.StrongLink?
    ensures RaiseAll(c, rs) == if rs != [] then Strong else c
  {
  }

  lemma {:induction false} VerdictOrigin(files: seq<File>, k: Kind, vs: seq<string>, r: Reason) returns (v: string)
    requires r in Verdicts(files, k, vs)
    ensures v in vs && Shared(files, k, v) && r == Verdict(files, k, v)
  {
    var init, last := vs[..|vs| - 1], vs[|vs| - 1];
    if r in Verdicts(files, k, init) {
      v := VerdictOrigin(files, k, init, r);
    } else {
      v := last;
    }
  }

  lemma {:induction false} VerdictRecorded(files: seq<File>, k: Kind, vs: seq<string>, v: string)
    requires v in vs && Shared(files, k, v)
    ensures Verdict(files, k, v) in Verdicts(files, k, vs)
  {
    var init, last := vs[..|vs| - 1], vs[|vs| - 1];
    assert vs == init + [last];
    if v in init {
      VerdictRecorded(files, k, init, v);
    }
  }

  /** Every reason of a kind comes from a shared value... */
  lemma {:induction false} ReasonOrigin(files: seq<File>, k: Kind, r: Reason) returns (v: string)
    requires r in KindReasons(files, k)
    ensures Shared(files, k, v) && r == Verdict(files, k, v)
  {
    v := VerdictOrigin(files, k, SortedSet(AllValues(files, k)), r);
  }

  /** ... and every shared value has its reason. */
  lemma {:induction false} SharedRecorded(files: seq<File>, k: Kind, v: string)
    requires Shared(files, k, v)
    ensures Verdict(files, k, v) in KindReasons(files, k)
  {
    var f, g :| f in files && g in files && Holds(f, k, v) && Holds(g, k, v) && f.name != g.name;
    assert v in AllValues(files, k);
    VerdictRecorded(files, k, SortedSet(AllValues(files, k)), v);
  }

  // ----- the ladder is what the reasons add up to -----

  lemma {:induction false} StrongReasonsMeaning(files: seq<File>)
    ensures forall r :: r in StrongReasons(files) ==> r.StrongLink?
    ensures StrongReasons(files) != [] <==> StronglyLinked(files)
  {
    if StronglyLinked(files) {
      var k, v :| IsStrongKind(k) && Shared(files, k, v);
      SharedRecorded(files, k, v);
    }
    forall r | r in StrongReasons(files) ensures r.StrongLink? && StronglyLinked(files) {
      var k := if r in KindReasons(files, JobSessionId) then JobSessionId else JobId;
      var v := ReasonOrigin(files, k, r);
    }
    if StrongReasons(files) != [] {
      assert StrongReasons(files)[0] in StrongReasons(files);
    }
  }

  lemma {:induction false} ResourceReasonOrigin(files: seq<File>, r: Reason) returns (k: Kind, v: string)
    requires r in ResourceReasons(files)
    ensures IsResourceKind(k) && Shared(files, k, v) && r == Verdict(files, k, v)
  {
    k := if r in KindReasons(files, ResourcePath) then ResourcePath
         else if r in KindReasons(files, VmIdentity) then VmIdentity else SnapshotId;
    v := ReasonOrigin(files, k, r);
  }

  lemma {:induction false} ResourceReasonsRecorded(files: seq<File>)
    ensures ResourceLinked(files) ==> ResourceReasons(files) != []
    ensures MediumLinked(files) ==> exists r :: r in ResourceReasons(files) && r.MediumLink?
  {
    if MediumLinked(files) {
      var k, v :| IsResourceKind(k) && Shared(files, k, v) && Verified(files, k, v);
      SharedRecorded(files, k, v);
      assert Verdict(files, k, v) in ResourceReasons(files);
    }
    if ResourceLinked(files) {
      var k, v :| IsResourceKind(k) && Shared(files, k, v);
      SharedRecorded(files, k, v);
    }
  }

  lemma {:induction false} ResourceReasonsMeaning(files: seq<File>)
    ensures forall r :: r in ResourceReasons(files) ==> r.MediumLink? || r.WeakLink?
    ensures ResourceReasons(files) != [] <==> ResourceLinked(files)
    ensures (exists r :: r in ResourceReasons(files) && r.MediumLink?) <==> MediumLinked(files)
  {
    ResourceReasonsRecorded(files);
    forall r | r in ResourceReasons(files)
      ensures (r.MediumLink? || r.WeakLink?) && ResourceLinked(files) && (r.MediumLink? ==> MediumLinked(files))
    {
      var k, v := ResourceReasonOrigin(files, r);
    }
    if ResourceReasons(files) != [] {
      assert ResourceReasons(files)[0] in ResourceReasons(files);
    }
  }

  lemma {:induction false} SignatureReasonsMeaning(files: seq<File>)
    ensures forall r :: r in KindReasons(files, SignaturePhrase) ==> r.WeakLink?
    ensures KindReasons(files, SignaturePhrase) != [] <==> SignatureLinked(files)
  {
    if SignatureLinked(files) {
      var v :| Shared(files, SignaturePhrase, v);
      SharedRecorded(files, SignaturePhrase, v);
    }
    forall r | r in KindReasons(files, SignaturePhrase) ensures r.WeakLink? && SignatureLinked(files) {
      var v := ReasonOrigin(files, SignaturePhrase, r);
    }
    if KindReasons(files, SignaturePhrase) != [] {
      assert KindReasons(files, SignaturePhrase)[0] in KindReasons(files, SignaturePhrase);
    }
  }

  /** The passes of the correlation, taken in order, climb the ladder and leave no reason unless
      they move the confidence. */
  lemma {:induction false} StrongPassesClimb(files: seq<File>)
    ensures RaiseAll(RaiseAll(Unrelated, KindReasons(files, JobSessionId)), KindReasons(files, JobId)) ==
            if StronglyLinked(files) then Strong else Unrelated
    ensures StronglyLinked(files) || StrongReasons(files) == []
  {
    RaiseAllConcat(Unrelated, KindReasons(files, JobSessionId), KindReasons(files, JobId));
    StrongReasonsMeaning(files);
    RaiseAllStrong(Unrelated, StrongReasons(files));
  }

  lemma {:induction false} ResourcePassesClimb(files: seq<File>)
    ensures RaiseAll(RaiseAll(RaiseAll(Unrelated, KindReasons(files, ResourcePath)), KindReasons(files, VmIdentity)),
                     KindReasons(files, SnapshotId)) ==
            if MediumLinked(files) then Medium else if ResourceLinked(files) then Weak else Unrelated
    ensures ResourceLinked(files) || ResourceReasons(files) == []
  {
    var ps, vms, snaps := KindReasons(files, ResourcePath), KindReasons(files, VmIdentity),
        KindReasons(files, SnapshotId);
    RaiseAllConcat(Unrelated, ps, vms);
    RaiseAllConcat(Unrelated, ps + vms, snaps);
    ResourceReasonsMeaning(files);
    RaiseAllMeaning(Unrelated, ResourceReasons(files));
  }

  lemma {:induction false} SignaturePassClimbs(files: seq<File>)
    ensures RaiseAll(Unrelated, KindReasons(files, SignaturePhrase)) == if SignatureLinked(files) then Weak
        else Unrelated
    ensures SignatureLinked(files) || KindReasons(files, SignaturePhrase) == []
  {
    SignatureReasonsMeaning(files);
    RaiseAllMeaning(Unrelated, KindReasons(files, SignaturePhrase));
  }

  // ----- upload order -----

  lemma {:induction false} SameFacts(a: seq<File>, b: seq<File>, k: Kind)
    requires multiset(a) == multiset(b)
    ensures AllValues(a, k) == AllValues(b, k)
    ensures forall v :: Names(a, k, v) == Names(b, k, v)
    ensures forall v :: Shared(a, k, v) == Shared(b, k, v)
    ensures forall v :: Verified(a, k, v) == Verified(b, k, v)
  {
    SameMembers(a, b);
    assert forall f, g :: TwoEntries(a, f, g) == TwoEntries(b, f, g);
  }

  lemma {:induction false} SameVerdicts(a: seq<File>, b: seq<File>, k: Kind, vs: seq<string>)
    requires multiset(a) == multiset(b)
    ensures Verdicts(a, k, vs) == Verdicts(b, k, vs)
  {
    if vs != [] {
      SameVerdicts(a, b, k, vs[..|vs| - 1]);
      SameFacts(a, b, k);
    }
  }

  lemma {:induction false} SameKindReasons(a: seq<File>, b: seq<File>, k: Kind)
    requires multiset(a) == multiset(b)
    ensures KindReasons(a, k) == KindReasons(b, k)
  {
    SameFacts(a, b, k);
    SameVerdicts(a, b, k, SortedSet(AllValues(a, k)));
  }

  lemma {:induction false} SameLadder(a: seq<File>, b: seq<File>)
    requires multiset(a) == multiset(b)
    ensures Ladder(a) == Ladder(b) && ResourceLinked(a) == ResourceLinked(b)
  {
    forall k, v ensures Shared(a, k, v) == Shared(b, k, v) && Verified(a, k, v) == Verified(b, k, v) {
      SameFacts(a, b, k);
    }
  }

  lemma {:induction false} SameReasonsFor(a: seq<File>, b: seq<File>, c: Confidence, byResource: bool)
    requires multiset(a) == multiset(b)
    ensures ReasonsFor(a, c, byResource) == ReasonsFor(b, c, byResource)
  {
    SameKindReasons(a, b, JobSessionId);
    SameKindReasons(a, b, JobId);
    SameKindReasons(a, b, ResourcePath);
    SameKindReasons(a, b, VmIdentity);
    SameKindReasons(a, b, SnapshotId);
    SameKindReasons(a, b, SignaturePhrase);
  }

  /** Upload order does not matter: a rearranged bundle gets the same confidence and the very same
      reasons in the same order. */
  lemma {:induction false} UploadOrderIrrelevant(a: seq<File>, b: seq<File>)
    requires multiset(a) == multiset(b)
    ensures Ladder(a) == Ladder(b) && Reasons(a) == Reasons(b)
    ensures (set f | f in a :: f.name) == (set f | f in b :: f.name)
  {
    assert |a| == |multiset(a)| == |multiset(b)| == |b|;
    SameMembers(a, b);
    SameLadder(a, b);
    SameReasonsFor(a, b, Ladder(a), ResourceLinked(a));
  }

  // ----- adding a file -----

  lemma {:induction false} SharedStays(files: seq<File>, x: File, k: Kind, v: string)
    requires Shared(files, k, v)
    ensures Shared(files + [x], k, v)
  {
    var f, g :| f in files && g in files && Holds(f, k, v) && Holds(g, k, v) && f.name != g.name;
    assert f in files + [x] && g in files + [x];
  }

  /** A further file never demotes a strong bundle and never makes a related bundle unrelated. */
  lemma {:induction false} AddingAFile(files: seq<File>, x: File)
    ensures Ladder(files).Strong? ==> Ladder(files + [x]).Strong?
    ensures !Ladder(files).Unrelated? ==> !Ladder(files + [x]).Unrelated?
  {
    forall k, v | Shared(files, k, v) ensures Shared(files + [x], k, v) { SharedStays(files, x, k, v); }
  }

  /** `x` holds the value together with a differently named file. */
  ghost predicate SharesWith(files: seq<File>, x: File, k: Kind, v: string) {
    exists f :: f in files && Holds(f, k, v) && Holds(x, k, v) && f.name != x.name
  }

  lemma {:induction false} SharedWithIff(files: seq<File>, x: File, k: Kind, v: string)
    ensures Shared(files + [x], k, v) <==> Shared(files, k, v) || SharesWith(files, x, k, v)
  {
    hide Holds, Verified;
    var all := files + [x];
    if Shared(files, k, v) { SharedStays(files, x, k, v); }
    if SharesWith(files, x, k, v) {
      var f :| f in files && Holds(f, k, v) && Holds(x, k, v) && f.name != x.name;
      assert f in all && x in all;
    }
    if Shared(all, k, v) {
      var f, g :| f in all && g in all && Holds(f, k, v) && Holds(g, k, v) && f.name != g.name;
      assert (f in files || f == x) && (g in files || g == x);
    }
  }

  /** Some holder among the files does not fit `x`, or `x` has no times. */
  ghost predicate Unsettles(files: seq<File>, x: File, k: Kind, v: string) {
    Holds(x, k, v) && exists f :: f in files && Holds(f, k, v) && !Compatible(f, x)
  }

  lemma {:induction false} EntriesWith(files: seq<File>, x: File, f: File, g: File)
    ensures TwoEntries(files, f, g) ==> TwoEntries(files + [x], f, g)
    ensures f in files ==> TwoEntries(files + [x], f, x)
    ensures TwoEntries(files + [x], f, g) ==>
              TwoEntries(files, f, g) || (f in files && g == x) || (g in files && f == x)
  {
    assert multiset(files + [x])[f] == multiset(files)[f] + multiset([x])[f];
  }

  /** A resource that was verified, with some holder, stays so unless `x` unsettles it. */
  lemma {:induction false} VerifiedWithIff(files: seq<File>, x: File, k: Kind, v: string)
    requires exists f :: f in files && Holds(f, k, v)
    ensures Verified(files + [x], k, v) <==> Verified(files, k, v) && !Unsettles(files, x, k, v)
  {
    var all := files + [x];
    if Verified(all, k, v) {
      forall f | f in files && Holds(f, k, v) ensures Timed(f) && (Holds(x, k, v) ==> Compatible(f, x)) {
        assert f in all && x in all;
        EntriesWith(files, x, f, x);
      }
      forall f, g | TwoEntries(files, f, g) && Holds(f, k, v) && Holds(g, k, v) ensures Compatible(f, g) {
        EntriesWith(files, x, f, g);
      }
    }
    if Verified(files, k, v) && !Unsettles(files, x, k, v) {
      forall f | f in all && Holds(f, k, v) ensures Timed(f) {
        assert f in files || f == x;
      }
      forall f, g | TwoEntries(all, f, g) && Holds(f, k, v) && Holds(g, k, v) ensures Compatible(f, g) {
        EntriesWith(files, x, f, g);
      }
    }
  }

  /** When a medium bundle falls to weak: exactly when the new file makes no strong link, and every
      resource that two files now share and that was verified before is one it unsettles. */
  lemma {:induction false} DemotesIff(files: seq<File>, x: File)
    requires Ladder(files) == Medium
    ensures Ladder(files + [x]) == Weak <==>
              && (forall k, v :: IsStrongKind(k) ==> !SharesWith(files, x, k, v))
              && (forall k, v :: IsResourceKind(k) && Shared(files + [x], k, v) && Verified(files, k, v) ==>
                    Unsettles(files, x, k, v))
  {
    AddingAFile(files, x);
    forall k, v ensures Shared(files + [x], k, v) <==> Shared(files, k, v) || SharesWith(files, x, k, v) {
      SharedWithIff(files, x, k, v);
    }
    forall k, v | Shared(files + [x], k, v)
      ensures Verified(files + [x], k, v) <==> Verified(files, k, v) && !Unsettles(files, x, k, v)
    {
      VerifiedWithIff(files, x, k, v);
    }
  }

  /** Files that observed nothing but one path. */
  ghost predicate OnlyPath(files: seq<File>, path: string) {
    forall f :: f in files ==> f.ids == map[] && f.signatures == [] && f.resources == [path]
  }

  lemma {:induction false} OnlyPathLadder(files: seq<File>, path: string, x: File, y: File)
    requires OnlyPath(files, path) && x in files && y in files && x.name != y.name
    ensures Ladder(files) == if Verified(files, ResourcePath, path) then Medium else Weak
  {
    hide Verified;
    assert Holds(x, ResourcePath, path) && Holds(y, ResourcePath, path);
    assert Shared(files, ResourcePath, path);
    forall k, v | Shared(files, k, v) ensures k == ResourcePath && v == path {
      var f, g :| f in files && g in files && Holds(f, k, v) && Holds(g, k, v) && f.name != g.name;
    }
  }

  lemma {:induction false} PathVerified(files: seq<File>, path: string)
    requires forall f, g :: f in files && g in files ==> Compatible(f, g)
    ensures Verified(files, ResourcePath, path)
  {
    forall f | f in files ensures Timed(f) { assert Compatible(f, f); }
  }

  /** But a further holder without timestamps demotes medium to weak. */
  lemma {:induction false} AddingAFileMayDemote(path: string, a: File, b: File, c: File)
    requires a == File("a", map[], [], [path], Some(0), Some(0), "utc")
    requires b == a.(name := "b")
    requires c == File("c", map[], [], [path], None, None, "")
    ensures Ladder([a, b]) == Medium && Ladder([a, b] + [c]) == Weak
  {
    hide Ladder, Shared;
    var two, three := [a, b], [a, b] + [c];
    assert OnlyPath(two, path) && OnlyPath(three, path);
    assert a in two && b in two && a in three && b in three && c in three;
    OnlyPathLadder(two, path, a, b);
    OnlyPathLadder(three, path, a, b);
    PathVerified(two, path);
    assert Holds(c, ResourcePath, path) && !Timed(c);
  }

  // ----- a common instant -----

  /** `t` lies inside the window of `f`, expanded by the tolerance on both sides. */
  ghost predicate Covers(f: File, t: int) {
    Timed(f) && f.timeMin.value - EPSILON <= t <= f.timeMax.value + EPSILON
  }

  lemma {:induction false} LatestStart(fs: set<File>) returns (m: File)
    requires fs != {} && forall f :: f in fs ==> Timed(f)
    ensures m in fs && forall f :: f in fs ==> Timed(f) && Timed(m) && f.timeMin.value <= m.timeMin.value
    decreases |fs|
  {
    var f :| f in fs;
    if fs == {f} {
      m := f;
    } else {
      var g := LatestStart(fs - {f});
      m := if f.timeMin.value >= g.timeMin.value then f else g;
      assert forall h :: h in fs ==> h == f || h in fs - {f};
    }
  }

  /** Whenever a shared resource counts as verified, there is one instant that lies inside the
      expanded windows of all its holders at once, although only pairs were compared. */
  lemma {:induction false} CommonInstant(files: seq<File>, k: Kind, v: string) returns (t: int)
    requires Shared(files, k, v) && Verified(files, k, v)
    ensures forall f :: f in files && Holds(f, k, v) ==> Covers(f, t)
  {
    var holders := set f | f in files && Holds(f, k, v);
    var x, y :| x in files && y in files && Holds(x, k, v) && Holds(y, k, v) && x.name != y.name;
    assert x in holders;
    var m := LatestStart(holders);
    t := m.timeMin.value - EPSILON;
    forall f | f in files && Holds(f, k, v) ensures Covers(f, t) {
      assert f in holders;
      var other := if f != m then m else if m == x then y else x;
      assert TwoEntries(files, f, other);
      CoversStart(f, other, m);
    }
  }

  lemma {:induction false} CoversStart(f: File, other: File, m: File)
    requires Compatible(f, other) && (f == m || other == m) && Timed(m)
    requires f.timeMin.value <= m.timeMin.value
    ensures Covers(f, m.timeMin.value - EPSILON)
  {
  }

  lemma {:induction false} MediumReasonOrigin(files: seq<File>, c: Confidence, byResource: bool, r: Reason)
    requires r in ReasonsFor(files, c, byResource) && r.MediumLink?
    ensures r in ResourceReasons(files)
  {
    if c.Strong? { StrongReasonsMeaning(files); }
    if c.Weak? && !byResource { SignatureReasonsMeaning(files); }
  }

  /** In particular behind every recorded medium reason. */
  lemma {:induction false} MediumReasonHasInstant(files: seq<File>, r: Reason) returns (t: int)
    requires r in Reasons(files) && r.MediumLink?
    ensures forall f :: f in files && Holds(f, r.kind, r.value) ==> Covers(f, t)
    ensures r.names == SortedSet(Names(files, r.kind, r.value)) && |r.names| >= 2
  {
    MediumReasonOrigin(files, Ladder(files), ResourceLinked(files), r);
    var k, v := ResourceReasonOrigin(files, r);
    t := CommonInstant(files, k, v);
    SharedNames(files, k, v);
    SortedSetSize(Names(files, k, v));
  }

  lemma {:induction false} SharedNames(files: seq<File>, k: Kind, v: string)
    ensures Shared(files, k, v) <==> |Names(files, k, v)| >= 2
  {
    hide Holds;
    var ns := Names(files, k, v);
    if Shared(files, k, v) {
      var f, g :| f in files && g in files && Holds(f, k, v) && Holds(g, k, v) && f.name != g.name;
      assert {f.name, g.name} <= ns;
      assert |ns - {f.name} - {g.name}| == |ns| - 2;
    }
    if |ns| >= 2 {
      var a :| a in ns;
      assert |ns - {a}| == |ns| - 1;
      var b :| b in ns - {a};
    }
  }

  // ----- the loops -----

  /** `g` lists the indexes of the holders of `v`. */
  ghost predicate IsGroup(files: seq<File>, k: Kind, v: string, g: seq<nat>) {
    && (forall a :: 0 <= a < |g| ==> g[a] < |files| && Holds(files[g[a]], k, v))
    && (forall i: nat :: i < |files| && Holds(files[i], k, v) ==> i in g)
  }

  ghost predicate AreGroups(files: seq<File>, k: Kind, groups: map<string, seq<nat>>) {
    groups.Keys == AllValues(files, k) && forall v :: v in groups ==> IsGroup(files, k, v, groups[v])
  }

  function Lookup(groups: map<string, seq<nat>>, v: string): seq<nat> {
    if v in groups then groups[v] else []
  }

  /** File `i` is listed under `v` once the first `n` files and `m` values of the next are grouped. */
  ghost predicate Listed(files: seq<File>, k: Kind, n: nat, m: nat, v: string, i: nat) {
    i < |files| && ((i < n && Holds(files[i], k, v))
        || (i == n && m <= |Values(files[n], k)| && v in Values(files[n], k)[..m]))
  }

  ghost predicate Grouped(files: seq<File>, k: Kind, n: nat, m: nat, groups: map<string, seq<nat>>) {
    && (forall v, i :: i in Lookup(groups, v) <==> Listed(files, k, n, m, v, i))
    && (forall v :: v in groups ==> groups[v] != [])
  }

  lemma {:induction false} GroupStep(files: seq<File>, k: Kind, n: nat, m: nat, groups: map<string, seq<nat>>)
    requires Grouped(files, k, n, m, groups) && n < |files| && m < |Values(files[n], k)|
    ensures var v := Values(files[n], k)[m];
            Grouped(files, k, n, m + 1, groups[v := Lookup(groups, v) + [n]])
  {
    var w := Values(files[n], k)[m];
    var vs := Values(files[n], k);
    var after := groups[w := Lookup(groups, w) + [n]];
    forall v, i: nat ensures i in Lookup(after, v) <==> Listed(files, k, n, m + 1, v, i) {
      assert vs[..m + 1] == vs[..m] + [w];
      assert i in Lookup(groups, v) <==> Listed(files, k, n, m, v, i);
    }
  }

  lemma {:induction false} GroupNextFile(files: seq<File>, k: Kind, n: nat, groups: map<string, seq<nat>>)
    requires n < |files| && Grouped(files, k, n, |Values(files[n], k)|, groups)
    ensures Grouped(files, k, n + 1, 0, groups)
  {
    var vs := Values(files[n], k);
    assert vs[..|vs|] == vs;
    forall v, i: nat ensures i in Lookup(groups, v) <==> Listed(files, k, n + 1, 0, v, i) {
      assert i in Lookup(groups, v) <==> Listed(files, k, n, |vs|, v, i);
    }
  }

  lemma {:induction false} GroupedAll(files: seq<File>, k: Kind, groups: map<string, seq<nat>>)
    requires Grouped(files, k, |files|, 0, groups)
    ensures AreGroups(files, k, groups)
  {
    forall v | v in groups ensures v in AllValues(files, k) && IsGroup(files, k, v, groups[v]) {
      forall a | 0 <= a < |groups[v]| ensures groups[v][a] < |files| && Holds(files[groups[v][a]], k, v) {
        assert groups[v][a] in Lookup(groups, v);
      }
      assert groups[v] != [];
      assert files[groups[v][0]] in files;
      forall i: nat | i < |files| && Holds(files[i], k, v) ensures i in groups[v] {
        assert Listed(files, k, |files|, 0, v, i);
      }
    }
    forall v | v in AllValues(files, k) ensures v in groups {
      var f :| f in files && v in Values(f, k);
      var i: nat :| i < |files| && files[i] == f;
      assert Listed(files, k, |files|, 0, v, i);
      assert i in Lookup(groups, v);
    }
  }

  /** Groups the file indexes by the values of one kind. */
  method GroupBy(files: seq<File>, k: Kind) returns (groups: map<string, seq<nat>>)
    ensures AreGroups(files, k, groups)
  {
    groups := map[];
    for n := 0 to |files|
      invariant Grouped(files, k, n, 0, groups)
    {
      var vs := Values(files[n], k);
      for m := 0 to |vs|
        invariant Grouped(files, k, n, m, groups)
      {
        GroupStep(files, k, n, m, groups);
        groups := groups[vs[m] := Lookup(groups, vs[m]) + [n]];
      }
      GroupNextFile(files, k, n, groups);
    }
    GroupedAll(files, k, groups);
  }

  ghost predicate InRange(files: seq<File>, g: seq<nat>) {
    forall a :: 0 <= a < |g| ==> g[a] < |files|
  }

  ghost predicate AllTimed(files: seq<File>, g: seq<nat>)
    requires InRange(files, g)
  {
    forall a :: 0 <= a < |g| ==> Timed(files[g[a]])
  }

  /** Entry `a` of the group agrees with each different one among the first `n`. */
  ghost predicate AgreesWith(files: seq<File>, g: seq<nat>, a: nat, n: nat)
    requires InRange(files, g) && a < |g| && n <= |g|
  {
    forall b :: 0 <= b < n && g[a] != g[b] ==> Compatible(files[g[a]], files[g[b]])
  }

  ghost predicate AllAgree(files: seq<File>, g: seq<nat>, n: nat)
    requires InRange(files, g) && n <= |g|
  {
    forall a :: 0 <= a < n ==> AgreesWith(files, g, a, |g|)
  }

  /** All entries of the group are timed, there are at least two, and any two different ones agree. */
  method WindowsAgree(files: seq<File>, group: seq<nat>) returns (overlap: bool)
    requires InRange(files, group)
    ensures overlap <==> |group| >= 2 && AllTimed(files, group) && AllAgree(files, group, |group|)
  {
    for a := 0 to |group|
      invariant forall b :: 0 <= b < a ==> Timed(files[group[b]])
    {
      if !Timed(files[group[a]]) {
        return false;
      }
    }
    if |group| < 2 {
      return false;
    }
    overlap := true;
    for a := 0 to |group|
      invariant overlap <==> AllAgree(files, group, a)
    {
      for b := 0 to |group|
        invariant overlap <==> AllAgree(files, group, a) && AgreesWith(files, group, a, b)
      {
        if group[a] == group[b] {
          continue;
        }
        var left, right := files[group[a]], files[group[b]];
        if !WindowsOverlap(left, right) || left.clock != right.clock {
          overlap := false;
        }
      }
    }
  }

  lemma {:induction false} SameEntryTwice(files: seq<File>, f: File) returns (i: nat, j: nat)
    requires multiset(files)[f] > 1
    ensures i < j < |files| && files[i] == f && files[j] == f
  {
    assert files == [files[0]] + files[1..];
    if files[0] == f {
      assert f in multiset(files[1..]);
      i := 0;
      var k :| 0 <= k < |files[1..]| && files[1..][k] == f;
      j := k + 1;
    } else {
      var a, b := SameEntryTwice(files[1..], f);
      i, j := a + 1, b + 1;
    }
  }

  lemma {:induction false} TwoIndexes(files: seq<File>, i: nat, j: nat)
    requires i < j < |files|
    ensures TwoEntries(files, files[i], files[j])
  {
    assert files == files[..i] + [files[i]] + files[i + 1..j] + [files[j]] + files[j + 1..];
  }

  lemma {:induction false} VerifiedMeansAgree(files: seq<File>, k: Kind, v: string, g: seq<nat>)
    requires IsGroup(files, k, v, g) && Verified(files, k, v)
    ensures AllTimed(files, g) && AllAgree(files, g, |g|)
  {
    forall a, b | 0 <= a < |g| && 0 <= b < |g| && g[a] != g[b] ensures Compatible(files[g[a]], files[g[b]]) {
      if g[a] < g[b] { TwoIndexes(files, g[a], g[b]); } else { TwoIndexes(files, g[b], g[a]); }
    }
  }

  lemma {:induction false} EntriesAgree(files: seq<File>, k: Kind, v: string, g: seq<nat>, i: nat, j: nat)
    requires IsGroup(files, k, v, g) && AllAgree(files, g, |g|)
    requires i < |files| && j < |files| && i != j && Holds(files[i], k, v) && Holds(files[j], k, v)
    ensures Compatible(files[i], files[j])
  {
    assert i in g && j in g;
    var a :| 0 <= a < |g| && g[a] == i;
    var b :| 0 <= b < |g| && g[b] == j;
    assert AgreesWith(files, g, a, |g|);
  }

  lemma {:induction false} AgreeMeansVerified(files: seq<File>, k: Kind, v: string, g: seq<nat>)
    requires IsGroup(files, k, v, g) && AllTimed(files, g) && AllAgree(files, g, |g|)
    ensures Verified(files, k, v)
  {
    forall f | f in files && Holds(f, k, v) ensures Timed(f) {
      var i: nat :| i < |files| && files[i] == f;
      assert i in g;
    }
    forall f, h | TwoEntries(files, f, h) && Holds(f, k, v) && Holds(h, k, v) ensures Compatible(f, h) {
      if f == h {
        var i, j := SameEntryTwice(files, f);
        EntriesAgree(files, k, v, g, i, j);
      } else {
        var i: nat :| i < |files| && files[i] == f;
        var j: nat :| j < |files| && files[j] == h;
        EntriesAgree(files, k, v, g, i, j);
      }
    }
  }

  lemma {:induction false} SharedGroup(files: seq<File>, k: Kind, v: string, g: seq<nat>)
    requires IsGroup(files, k, v, g) && Shared(files, k, v)
    ensures |g| >= 2
  {
    hide IsGroup, Values, Verified;
    var x, y :| x in files && y in files && Holds(x, k, v) && Holds(y, k, v) && x.name != y.name;
    var p := GroupPosition(files, k, v, g, x);
    var q := GroupPosition(files, k, v, g, y);
  }

  lemma {:induction false} GroupPosition(files: seq<File>, k: Kind, v: string, g: seq<nat>, f: File) returns (a: nat)
    requires IsGroup(files, k, v, g) && f in files && Holds(f, k, v)
    ensures a < |g| && files[g[a]] == f
  {
    var i: nat :| i < |files| && files[i] == f;
    assert i in g;
    a :| a < |g| && g[a] == i;
  }

  /** Comparing the entries of a group by position decides `Verified`. */
  lemma {:induction false} GroupDecides(files: seq<File>, k: Kind, v: string, g: seq<nat>)
    requires IsGroup(files, k, v, g) && Shared(files, k, v)
    ensures Verified(files, k, v) <==> |g| >= 2 && AllTimed(files, g) && AllAgree(files, g, |g|)
  {
    SharedGroup(files, k, v, g);
    if Verified(files, k, v) {
      VerifiedMeansAgree(files, k, v, g);
    } else if AllTimed(files, g) && AllAgree(files, g, |g|) {
      AgreeMeansVerified(files, k, v, g);
    }
  }

  lemma {:induction false} GroupNames(files: seq<File>, k: Kind, v: string, g: seq<nat>)
    requires IsGroup(files, k, v, g)
    ensures (set i | i in g :: files[i].name) == Names(files, k, v)
  {
    forall f | f in files && Holds(f, k, v) ensures f.name in (set i | i in g :: files[i].name) {
      var i: nat :| i < |files| && files[i] == f;
      assert i in g;
    }
  }

  // ----- the passes -----

  /** The names a reason brings in. */
  function NamesIn(r: Reason): set<string> {
    if r.StrongLink? || r.MediumLink? || r.WeakLink? then set n | n in r.names else {}
  }

  lemma {:induction false} MentionedSnoc(rs: seq<Reason>, r: Reason)
    ensures Mentioned(rs + [r]) == Mentioned(rs) + NamesIn(r)
  {
    assert forall q :: q in rs + [r] <==> q in rs || q == r;
    forall n ensures n in Mentioned(rs + [r]) <==> n in Mentioned(rs) || n in NamesIn(r) {
    }
  }

  /** The reason a value gives, if it is shared. */
  ghost function VerdictOn(files: seq<File>, k: Kind, v: string): Option<Reason> {
    if Shared(files, k, v) then Some(Verdict(files, k, v)) else None
  }

  lemma {:induction false} VerdictsNext(files: seq<File>, k: Kind, vs: seq<string>, n: nat)
    requires n < |vs|
    ensures var before, r := Verdicts(files, k, vs[..n]), VerdictOn(files, k, vs[n]);
            Verdicts(files, k, vs[..n + 1]) == if r.Some? then before + [r.value] else before
  {
    assert vs[..n + 1][..n] == vs[..n];
  }

  /** Looks at one group: what two names share gives a reason, by kind and by the windows. */
  method Judge(files: seq<File>, k: Kind, groups: map<string, seq<nat>>, v: string) returns (r: Option<Reason>)
    requires AreGroups(files, k, groups) && v in groups
    ensures r == VerdictOn(files, k, v)
  {
    var group := groups[v];
    var names := set i | i in group :: files[i].name;
    GroupNames(files, k, v, group);
    SharedNames(files, k, v);
    if |names| < 2 {
      return None;
    }
    var sorted := SortSet(names);
    if IsStrongKind(k) {
      return Some(StrongLink(k, v, sorted));
    }
    if IsResourceKind(k) {
      GroupDecides(files, k, v, group);
      var verified := WindowsAgree(files, group);
      if verified {
        return Some(MediumLink(k, v, sorted));
      }
    }
    return Some(WeakLink(k, v, sorted));
  }

  /** The reasons of one kind, over its values in sorted order. */
  method JudgeKind(files: seq<File>, k: Kind) returns (rs: seq<Reason>)
    ensures rs == KindReasons(files, k)
  {
    var groups := GroupBy(files, k);
    var vs := SortSet(groups.Keys);
    rs := [];
    for n := 0 to |vs|
      invariant rs == Verdicts(files, k, vs[..n])
    {
      assert vs[n] in vs;
      var r := Judge(files, k, groups, vs[n]);
      VerdictsNext(files, k, vs, n);
      if r.Some? {
        rs := rs + [r.value];
      }
    }
    assert vs[..|vs|] == vs;
  }

  lemma {:induction false} NothingMentioned()
    ensures Mentioned([]) == {}
  {
  }

  class Correlator {
    const files: seq<File>
    var confidence: Confidence
    var reasons: seq<Reason>
    var correlated: set<string>

    constructor (files: seq<File>)
      ensures this.files == files && Blank()
    {
      this.files, confidence, reasons, correlated := files, Unrelated, [], {};
    }

    ghost predicate Blank()
      reads this
    {
      confidence == Unrelated && reasons == [] && correlated == {}
    }

    /** The sources are the names in the reasons. */
    ghost predicate Consistent()
      reads this
    {
      correlated == Mentioned(reasons)
    }

    /** Records a reason and lets it move the confidence. */
    method Record(r: Reason)
      requires Consistent()
      modifies this
      ensures Consistent()
      ensures reasons == old(reasons) + [r] && confidence == Raise(old(confidence), r)
    {
      if r.StrongLink? {
        confidence := Strong;
      } else if r.MediumLink? {
        confidence := Medium;
      } else if r.WeakLink? && confidence.Unrelated? {
        confidence := Weak;
      }
      MentionedSnoc(reasons, r);
      correlated := correlated + NamesIn(r);
      reasons := reasons + [r];
    }

    /** One pass over the values of a kind. */
    method Pass(k: Kind)
      requires Consistent()
      modifies this
      ensures Consistent()
      ensures reasons == old(reasons) + KindReasons(files, k)
      ensures confidence == RaiseAll(old(confidence), KindReasons(files, k))
    {
      var rs := JudgeKind(files, k);
      for n := 0 to |rs|
        invariant Consistent()
        invariant reasons == old(reasons) + rs[..n]
        invariant confidence == RaiseAll(old(confidence), rs[..n])
      {
        assert rs[..n + 1] == rs[..n] + [rs[n]] && rs[..n + 1][..n] == rs[..n];
        Record(rs[n]);
      }
      assert rs[..|rs|] == rs;
    }

    /** Shared job and job-session identifiers. */
    method StrongPasses()
      requires Blank()
      modifies this
      ensures Consistent() && reasons == StrongReasons(files)
      ensures confidence == (if StronglyLinked(files) then Strong else Unrelated)
      ensures StronglyLinked(files) || Blank()
    {
      Pass(JobSessionId);
      assert reasons == KindReasons(files, JobSessionId);
      Pass(JobId);
      assert reasons == StrongReasons(files);
      StrongPassesClimb(files);
      if !StronglyLinked(files) {
        NothingMentioned();
      }
    }

    /** Shared resources. */
    method ResourcePasses()
      requires Blank() && !StronglyLinked(files)
      modifies this
      ensures Consistent() && reasons == ResourceReasons(files)
      ensures confidence == (if MediumLinked(files) then Medium else if ResourceLinked(files) then Weak else Unrelated)
      ensures ResourceLinked(files) || Blank()
    {
      Pass(ResourcePath);
      assert reasons == KindReasons(files, ResourcePath);
      Pass(VmIdentity);
      assert reasons == KindReasons(files, ResourcePath) + KindReasons(files, VmIdentity);
      Pass(SnapshotId);
      assert reasons == ResourceReasons(files);
      ResourcePassesClimb(files);
      if !ResourceLinked(files) {
        NothingMentioned();
      }
    }

    /** Shared signatures. */
    method SignaturePass()
      requires Blank()
      modifies this
      ensures Consistent() && reasons == KindReasons(files, SignaturePhrase)
      ensures confidence == (if SignatureLinked(files) then Weak else Unrelated)
      ensures SignatureLinked(files) || reasons == []
    {
      Pass(SignaturePhrase);
      assert reasons == KindReasons(files, SignaturePhrase);
      SignaturePassClimbs(files);
    }

    /** The closing remark on an unrelated or weakly related bundle. */
    method Remark()
      requires Consistent()
      modifies this`reasons
      ensures Consistent()
      ensures reasons == old(reasons) + if confidence == Unrelated then [NoLink]
          else if confidence == Weak then [NotCausal] else []
    {
      if confidence == Unrelated {
        MentionedSnoc(reasons, NoLink);
        reasons := reasons + [NoLink];
      } else if confidence == Weak {
        MentionedSnoc(reasons, NotCausal);
        reasons := reasons + [NotCausal];
      }
    }

    /** Resources are consulted while nothing strong was found, signatures while nothing was. */
    method Run()
      requires Blank() && |files| >= 2
      modifies this
      ensures confidence == Ladder(files) && reasons == Reasons(files) && Consistent()
    {
      StrongPasses();
      if confidence != Strong {
        ResourcePasses();
        if confidence == Unrelated {
          SignaturePass();
        }
      }
      assert confidence == Ladder(files);
      Remark();
    }
  }

  function AllNames(files: seq<File>): seq<string> {
    seq(|files|, i requires 0 <= i < |files| => files[i].name)
  }

  /** The correlation of a bundle.  The loops compute the ladder and its reasons; the sources are the
      files mentioned in the reasons, or all files in upload order when nothing relates them. */
  method CorrelateBundle(files: seq<File>) returns (confidence: Confidence, reasons: seq<Reason>, sources: seq<string>)
    ensures confidence == Ladder(files)
    ensures reasons == Reasons(files)
    ensures sources == if confidence.Unrelated? then AllNames(files) else SortedSet(Mentioned(reasons))
  {
    if |files| < 2 {
      FewFilesUnrelated(files);
      return Unrelated, [SingleFile], AllNames(files);
    }
    var c := new Correlator(files);
    c.Run();
    confidence, reasons, sources := c.confidence, c.reasons, AllNames(files);
    if !confidence.Unrelated? {
      sources := SortSet(c.correlated);
    }
  }

  lemma {:induction false} FewFilesUnrelated(files: seq<File>)
    requires |files| < 2
    ensures Ladder(files) == Unrelated
  {
    forall k, v ensures !Shared(files, k, v) {
    }
  }
}
