/**
 * The counting screen of the top-level application: profiles named after the expected spore
 * density, tuned for a balance of recall and precision, and a stricter default. The older
 * "Hongo n" names are no longer recognised here and fall back to the default.
 */
module DensityProfiles {
  import opened Optional
  import opened Detection

  const Low := "Baja Densidad (0-170 esporas)"
  const Moderate := "Densidad Moderada (170-500 esporas)"
  const High := "Alta Densidad (500-1000 esporas)"
  const VeryHigh := "Densidad Muy Alta (1000+ esporas)"

  /** The constants used when the identifier matches no profile. */
  const Default: Profile := Profile(15, 5.0, 5.0, 100.0, 0.65, 0.80, 1, 0, 1, 0.5, 2.0)

  const Table: map<string, Profile> := map[
    Low := Profile(17, 6.0, 8.0, 90.0, 0.68, 0.82, 1, 0, 4, 0.6, 1.9),
    Moderate := Profile(13, 4.0, 7.0, 80.0, 0.60, 0.75, 1, 0, 4, 0.55, 1.8),
    High := Profile(15, 5.0, 6.0, 85.0, 0.62, 0.78, 1, 0, 4, 0.45, 2.6),
    VeryHigh := Profile(15, 5.0, 2.5, 85.0, 0.38, 0.58, 0, 0, 4, 0.45, 2.6)
  ]

  /** Every entry is well formed with an odd block size of at least 3, and none is the default. */
  lemma TableIsOk()
    ensures TableOk(Table, Default)
  {
  }

  /** The profile in use for an identifier from the previous screen. */
  function Resolve(extra: Option<string>): (p: Profile)
    ensures WellFormed(p)
    ensures p == Default <==> NormalizeId(extra) !in Table
    ensures p == (if NormalizeId(extra) in Table then Table[NormalizeId(extra)] else Default)
  {
    TableIsOk();
    ResolveProfile(Table, Default, extra)
  }

  /** The default constants, reached by every identifier outside the four density names. */
  lemma DefaultConstants(id: string)
    requires id !in {Low, Moderate, High, VeryHigh}
    ensures Resolve(Some(id)) == Profile(15, 5.0, 5.0, 100.0, 0.65, 0.80, 1, 0, 1, 0.5, 2.0)
    ensures Resolve(None) == Resolve(Some(id))
  {
    TableIsOk();
    UnknownIsDefault(Table, Default, id);
  }

  /** The names of the older screen select nothing here. */
  lemma HongoNamesFallBack()
    ensures Resolve(Some("Hongo 1")) == Default && Resolve(Some("Hongo 2")) == Default
    ensures Resolve(Some("Hongo 3")) == Default && Resolve(Some("Hongo 4")) == Default
  {
  }

  /** Each density name selects exactly its listed constants. */
  lemma ListedConstants()
    ensures Resolve(Some(Low)) == Profile(17, 6.0, 8.0, 90.0, 0.68, 0.82, 1, 0, 4, 0.6, 1.9)
    ensures Resolve(Some(Moderate)) == Profile(13, 4.0, 7.0, 80.0, 0.60, 0.75, 1, 0, 4, 0.55, 1.8)
    ensures Resolve(Some(High)) == Profile(15, 5.0, 6.0, 85.0, 0.62, 0.78, 1, 0, 4, 0.45, 2.6)
    ensures Resolve(Some(VeryHigh)) == Profile(15, 5.0, 2.5, 85.0, 0.38, 0.58, 0, 0, 4, 0.45, 2.6)
  {
  }

  /** Only the very-high-density profile skips the opening pass; none runs a closing pass. */
  lemma OnlyVeryHighSkipsOpening(extra: Option<string>)
    ensures Resolve(extra).openIterations == 0 <==> extra == Some(VeryHigh)
    ensures Resolve(extra).openIterations <= 1 && Resolve(extra).closeIterations == 0
  {
  }

  /** Every aspect range lies within [0.45, 2.6]. */
  lemma AspectWithin(extra: Option<string>)
    ensures 0.45 <= Resolve(extra).minAspect && Resolve(extra).maxAspect <= 2.6
  {
  }

  /** A box ten times longer one way than the other is never counted, whatever the identifier. */
  lemma StripNeverCounted(extra: Option<string>, m: Metrics)
    requires 10 * m.box.width <= m.box.height || 10 * m.box.height <= m.box.width
    ensures Classify(Resolve(extra), m) != Accepted
  {
    AspectWithin(extra);
    StripRejected(Resolve(extra), m);
  }
}
