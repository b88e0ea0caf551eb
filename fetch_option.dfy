/**
 * `ACNetworkingFetchOption`: a bit mask holding up to five primary modes, of which
 * only the highest-priority one is honoured, and two modifiers that combine freely
 * with any mode.
 */
module FetchOption {

  /** The primary fetch modes. */
  datatype Mode = NetFirst | NetOnly | LocalOnly | LocalFirst | LocalAndNet

  /** A resolved option: the honoured primary mode and the two modifiers. */
  datatype Strategy = Strategy(mode: Mode, notUpdateCache: bool, deleteCache: bool)

  /** The flag values of the enum (`1 << 0` to `1 << 6`) in an `NSUInteger`. */
  const NetFirstFlag: bv64 := 1
  const NetOnlyFlag: bv64 := 2
  const LocalOnlyFlag: bv64 := 4
  const LocalFirstFlag: bv64 := 8
  const LocalAndNetFlag: bv64 := 16
  const NotUpdateCacheFlag: bv64 := 32
  const DeleteCacheFlag: bv64 := 64

  /** The flag that selects a mode. */
  function Flag(m: Mode): bv64
  {
    match m
    case NetFirst => NetFirstFlag
    case NetOnly => NetOnlyFlag
    case LocalOnly => LocalOnlyFlag
    case LocalFirst => LocalFirstFlag
    case LocalAndNet => LocalAndNetFlag
  }

  /** `options` has the bits of `flag` set. */
  predicate Raised(options: bv64, flag: bv64)
  {
    options & flag != 0
  }

  /**
   * The modes that outrank the default, highest priority first: the enum lists
   * them in order of decreasing priority after NetFirst, the lowest.
   */
  const Precedence: seq<Mode> := [NetOnly, LocalOnly, LocalFirst, LocalAndNet]

  /** The priority of a mode as the enum's comments state it (higher wins). */
  function Rank(m: Mode): nat
  {
    match m
    case NetOnly => 4
    case LocalOnly => 3
    case LocalFirst => 2
    case LocalAndNet => 1
    case NetFirst => 0
  }

  /**
   * The index of the first mode at or after `i` in `Precedence` whose flag is raised,
   * or `|Precedence|` when there is none.
   */
  function FirstRaised(options: bv64, i: nat): (k: nat)
    requires i <= |Precedence|
    ensures i <= k <= |Precedence|
    ensures k < |Precedence| ==> Raised(options, Flag(Precedence[k]))
    ensures forall j :: i <= j < k ==> !Raised(options, Flag(Precedence[j]))
    decreases |Precedence| - i
  {
    if i == |Precedence| then i
    else if Raised(options, Flag(Precedence[i])) then i
    else FirstRaised(options, i + 1)
  }

  /**
   * Resolve an option mask: the first raised mode in order of precedence, NetFirst
   * when none of the four higher modes is raised, and the two modifiers read off
   * their own bits.
   */
  function Resolve(options: bv64): (s: Strategy)
    ensures s.mode == NetFirst || Raised(options, Flag(s.mode))
    ensures s.notUpdateCache <==> Raised(options, NotUpdateCacheFlag)
    ensures s.deleteCache <==> Raised(options, DeleteCacheFlag)
  {
    var k := FirstRaised(options, 0);
    Strategy(if k < |Precedence| then Precedence[k] else NetFirst,
             Raised(options, NotUpdateCacheFlag),
             Raised(options, DeleteCacheFlag))
  }

  /** `Precedence` lists every mode but the default, in order of decreasing rank. */
  lemma PrecedenceRanks(m: Mode)
    ensures m != NetFirst ==> 0 <= 4 - Rank(m) < |Precedence| && Precedence[4 - Rank(m)] == m
    ensures forall j :: 0 <= j < |Precedence| ==> Rank(Precedence[j]) == 4 - j
  {
  }

  /**
   * Primary-mode precedence: no raised mode outranks the resolved one, so the
   * resolved mode is the highest-priority mode whose flag is set.
   */
  lemma ResolveHonoursPrecedence(options: bv64, m: Mode)
    requires Raised(options, Flag(m))
    ensures Rank(m) <= Rank(Resolve(options).mode)
  {
    var k := FirstRaised(options, 0);
    PrecedenceRanks(m);
    if m != NetFirst {
      assert k <= 4 - Rank(m);
    }
  }

  /** Two modes of equal rank are the same mode, so the highest raised mode is unique. */
  lemma RankIsInjective(m: Mode, n: Mode)
    requires Rank(m) == Rank(n)
    ensures m == n
  {
  }

  /** The NetFirst flag never changes the resolution: NetFirst is the default anyway. */
  lemma NetFirstFlagIrrelevant(options: bv64)
    ensures Resolve(options | NetFirstFlag) == Resolve(options)
  {
    HigherFlagsUntouched(options, NetFirstFlag);
    FirstRaisedAgrees(options | NetFirstFlag, options, 0);
  }

  /**
   * The modifiers have no priority: raising them leaves the primary mode as it was,
   * and raising a modifier always turns it on.
   */
  lemma ModifiersDoNotAffectMode(options: bv64, modifiers: bv64)
    requires modifiers & (NotUpdateCacheFlag | DeleteCacheFlag) == modifiers
    ensures Resolve(options | modifiers).mode == Resolve(options).mode
    ensures Raised(modifiers, NotUpdateCacheFlag) ==> Resolve(options | modifiers).notUpdateCache
    ensures Raised(modifiers, DeleteCacheFlag) ==> Resolve(options | modifiers).deleteCache
  {
    assert modifiers & (NetOnlyFlag | LocalOnlyFlag | LocalFirstFlag | LocalAndNetFlag) == 0;
    HigherFlagsUntouched(options, modifiers);
    FirstRaisedAgrees(options | modifiers, options, 0);
  }

  /** Two masks that agree on the flags of the modes from `i` on give the same scan result. */
  lemma {:induction false} FirstRaisedAgrees(a: bv64, b: bv64, i: nat)
    requires i <= |Precedence|
    requires forall m :: m != NetFirst ==> (Raised(a, Flag(m)) <==> Raised(b, Flag(m)))
    ensures FirstRaised(a, i) == FirstRaised(b, i)
    decreases |Precedence| - i
  {
    if i < |Precedence| {
      FirstRaisedAgrees(a, b, i + 1);
    }
  }

  /** Or-ing in bits outside the four higher modes' flags keeps every one of those flags as it was. */
  lemma HigherFlagsUntouched(options: bv64, extra: bv64)
    requires extra & (NetOnlyFlag | LocalOnlyFlag | LocalFirstFlag | LocalAndNetFlag) == 0
    ensures forall m :: m != NetFirst ==> (Raised(options | extra, Flag(m)) <==> Raised(options, Flag(m)))
  {
    forall m | m != NetFirst
      ensures Raised(options | extra, Flag(m)) <==> Raised(options, Flag(m))
    {
      FlagUntouched(options, extra, Flag(m));
    }
  }

  /** Or-ing in bits that miss one of the four higher modes' flags leaves that flag's bits alone. */
  lemma FlagUntouched(options: bv64, extra: bv64, f: bv64)
    requires extra & (NetOnlyFlag | LocalOnlyFlag | LocalFirstFlag | LocalAndNetFlag) == 0
    requires f == NetOnlyFlag || f == LocalOnlyFlag || f == LocalFirstFlag || f == LocalAndNetFlag
    ensures (options | extra) & f == options & f
  {
    assert extra & f == 0;
  }

  /** NetOnly | LocalOnly behaves as NetOnly alone. */
  lemma NetOnlyBeatsLocalOnly(options: bv64)
    requires Raised(options, NetOnlyFlag)
    ensures Resolve(options).mode == NetOnly
  {
    ResolveHonoursPrecedence(options, NetOnly);
    var r := Resolve(options).mode;
    assert Rank(r) == 4;
  }
}
