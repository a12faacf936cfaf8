/**
 * The counting screen of the `appesporas` application: profiles named "Hongo 1" to "Hongo 4",
 * tuned for recall, and a permissive default.
 */
module HongoProfiles {
  import opened Optional
  import opened Detection

  /** The constants used when the identifier matches no profile. */
  const Default: Profile := Profile(15, 5.0, 1.0, 100.0, 0.40, 0.60, 0, 0, 1, 0.3, 3.0)

  const Table: map<string, Profile> := map[
    "Hongo 1" := Profile(13, 4.0, 2.0, 80.0, 0.35, 0.55, 0, 0, 2, 0.4, 2.5),
    "Hongo 2" := Profile(17, 6.0, 3.0, 90.0, 0.30, 0.50, 0, 0, 1, 0.35, 2.8),
    "Hongo 3" := Profile(15, 5.0, 2.5, 85.0, 0.38, 0.58, 0, 0, 2, 0.45, 2.6),
    "Hongo 4" := Profile(15, 7.0, 1.5, 95.0, 0.32, 0.52, 0, 0, 1, 0.3, 2.9)
  ]

  /** Every entry is well formed with an odd block size of at least 3, and none is the default. */
  lemma TableIsOk()
    ensures TableOk(Table, Default)
  {
  }

  /** The profile in use for an identifier from the previous screen. */
  function Resolve(extra: Option<string>): (p: Profile)
    ensures WellFormed(p)
    ensures p == Default <==> NormalizeId(extra) !in Table
    ensures p == (if NormalizeId(extra) in Table then Table[NormalizeId(extra)] else Default)
  {
    TableIsOk();
    ResolveProfile(Table, Default, extra)
  }

  /** The default constants, reached by every identifier outside the four names. */
  lemma DefaultConstants(id: string)
    requires id !in {"Hongo 1", "Hongo 2", "Hongo 3", "Hongo 4"}
    ensures Resolve(Some(id)) == Profile(15, 5.0, 1.0, 100.0, 0.40, 0.60, 0, 0, 1, 0.3, 3.0)
    ensures Resolve(None) == Resolve(Some(id))
  {
    TableIsOk();
    UnknownIsDefault(Table, Default, id);
  }

  /** Each name selects exactly its listed constants. */
  lemma ListedConstants()
    ensures Resolve(Some("Hongo 1")) == Profile(13, 4.0, 2.0, 80.0, 0.35, 0.55, 0, 0, 2, 0.4, 2.5)
    ensures Resolve(Some("Hongo 2")) == Profile(17, 6.0, 3.0, 90.0, 0.30, 0.50, 0, 0, 1, 0.35, 2.8)
    ensures Resolve(Some("Hongo 3")) == Profile(15, 5.0, 2.5, 85.0, 0.38, 0.58, 0, 0, 2, 0.45, 2.6)
    ensures Resolve(Some("Hongo 4")) == Profile(15, 7.0, 1.5, 95.0, 0.32, 0.52, 0, 0, 1, 0.3, 2.9)
  {
  }

  /** No profile of this screen runs an opening or closing pass. */
  lemma NoMorphology(extra: Option<string>)
    ensures Resolve(extra).openIterations == 0 && Resolve(extra).closeIterations == 0
  {
  }

  /** Every aspect range lies within [0.3, 3.0]. */
  lemma AspectWithin(extra: Option<string>)
    ensures 0.3 <= Resolve(extra).minAspect && Resolve(extra).maxAspect <= 3.0
  {
  }

  /** A box ten times longer one way than the other is never counted, whatever the identifier. */
  lemma StripNeverCounted(extra: Option<string>, m: Metrics)
    requires 10 * m.box.width <= m.box.height || 10 * m.box.height <= m.box.width
    ensures Classify(Resolve(extra), m) != Accepted
  {
    AspectWithin(extra);
    StripRejected(Resolve(extra), m);
  }
}
