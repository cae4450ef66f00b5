/**
 The same builder calls on the binary writer, read back and translated, and on the flat writer give the same flat
 form: exactly when the counts fit, the name has no NUL and the number of cores was never set higher than it ends.
 */
module FlatCommutes {
  import opened Wrappers
  import opened ByteCodec
  import opened MetadataFormat
  import opened MetadataImage
  import opened MetadataReader
  import opened FlatTranslation
  import opened MetadataRoundTrip
  import opened MetadataDraft

  function Started(hwVersionMajor: U8, hwVersionMinor: U8): Draft {
    Draft(InitialContent(hwVersionMajor, hwVersionMinor, NoTables(MAX_CORES)), 0)
  }

  function FlatStarted(hwVersionMajor: U8, hwVersionMinor: U8): FlatDraft {
    FlatDraft(Flat(InitialContent(hwVersionMajor, hwVersionMinor, []), 0, 0), 0)
  }

  function ApplyAll(d: Draft, calls: seq<BuildCall>): Draft {
    if calls == [] then d else Apply(ApplyAll(d, calls[..|calls| - 1]), calls[|calls| - 1])
  }

  function FlatApplyAll(d: FlatDraft, calls: seq<BuildCall>): FlatDraft {
    if calls == [] then d else FlatApply(FlatApplyAll(d, calls[..|calls| - 1]), calls[|calls| - 1])
  }

  predicate AdmittedAll(d: Draft, calls: seq<BuildCall>) {
    calls != [] ==>
      AdmittedAll(d, calls[..|calls| - 1]) && Admitted(ApplyAll(d, calls[..|calls| - 1]), calls[|calls| - 1])
  }

  /** The highest number of cores any call sets. */
  function HighestNumNSPs(calls: seq<BuildCall>): nat {
    if calls == [] then 0
    else
      var last, before := calls[|calls| - 1], HighestNumNSPs(calls[..|calls| - 1]);
      if last.SetNumNSPs? && last.numNSPs > before then last.numNSPs else before
  }

  /** The tables agree as far as the flat writer has them; the others are empty. */
  predicate TablesAgree(ts: seq<seq<NspEntry>>, flat: seq<seq<NspEntry>>) {
    && |ts| == MAX_CORES
    && (forall i :: 0 <= i < |ts| && i < |flat| ==> ts[i] == flat[i])
    && (forall i :: |flat| <= i < |ts| ==> ts[i] == [])
    && (forall i :: |ts| <= i < |flat| ==> flat[i] == [])
  }

  predicate Agree(d: Draft, f: FlatDraft) {
    && f.flat.content == d.content.(nspTables := f.flat.content.nspTables)
    && TablesAgree(d.content.nspTables, f.flat.content.nspTables)
    && d.content.scalars.numNSPs <= |f.flat.content.nspTables|
    && f.flat.numSemaphores == |d.content.semaphoreInitState|
    && f.flat.L2TCMInitSize == |d.content.L2TCMInitState|
    && f.cores == d.cores
    && d.content.versionMajor == MAJOR_VERSION && d.content.versionMinor == MINOR_VERSION
  }

  /** Every admitted call keeps the two writers in agreement. */
  lemma CallKeepsAgreement(d: Draft, f: FlatDraft, call: BuildCall)
    requires Agree(d, f) && Admitted(d, call)
    ensures Agree(Apply(d, call), FlatApply(f, call))
  {
    hide LE, Resized, TypeMask;
  }

  lemma {:induction false} RunsAgree(hwVersionMajor: U8, hwVersionMinor: U8, calls: seq<BuildCall>)
    requires AdmittedAll(Started(hwVersionMajor, hwVersionMinor), calls)
    ensures Agree(ApplyAll(Started(hwVersionMajor, hwVersionMinor), calls),
                  FlatApplyAll(FlatStarted(hwVersionMajor, hwVersionMinor), calls))
    ensures |FlatApplyAll(FlatStarted(hwVersionMajor, hwVersionMinor), calls).flat.content.nspTables|
            == HighestNumNSPs(calls)
  {
    if calls != [] {
      var before, last := calls[..|calls| - 1], calls[|calls| - 1];
      RunsAgree(hwVersionMajor, hwVersionMinor, before);
      CallKeepsAgreement(ApplyAll(Started(hwVersionMajor, hwVersionMinor), before),
                         FlatApplyAll(FlatStarted(hwVersionMajor, hwVersionMinor), before), last);
      GrowsToHighest(FlatApplyAll(FlatStarted(hwVersionMajor, hwVersionMinor), before), last);
      hide FlatApply, Apply, Agree, Started, FlatStarted, Admitted;
    }
  }

  lemma GrowsToHighest(f: FlatDraft, call: BuildCall)
    ensures var n := |f.flat.content.nspTables|;
            |FlatApply(f, call).flat.content.nspTables|
            == if call.SetNumNSPs? && call.numNSPs > n then call.numNSPs else n
  {
    hide LE, Resized, TypeMask;
  }

  /** The flat form the flat writer packs. */
  function FlatFinished(f: FlatDraft): Flat {
    f.flat.(content := Named(f.flat.content))
  }

  /** The flat writer has the binary writer's content when it has as many tables as there are cores. */
  lemma FinishedAgree(d: Draft, f: FlatDraft)
    requires Agree(d, f) && CanFinalize(d)
    ensures var c, n := Finished(d), d.content.scalars.numNSPs;
            && |c.nspTables| == n == c.scalars.numNSPs
            && (|f.flat.content.nspTables| == n ==> FlatFinished(f).content == c)
            && |FlatFinished(f).content.nspTables| == |f.flat.content.nspTables|
            && f.flat.numSemaphores == |c.semaphoreInitState| && f.flat.L2TCMInitSize == |c.L2TCMInitState|
  {
    hide ImageSize;
    var ts, fs, n := d.content.nspTables, f.flat.content.nspTables, d.content.scalars.numNSPs;
    if |fs| == n { assert fs == ts[..n]; }
  }

  /** The flat form of a content is the whole content with its sizes exactly when the counts fit. */
  lemma FlatOfIsAllIff(c: Content, flat: Flat)
    requires |c.semaphoreInitState| < 0x1_0000 && |c.L2TCMInitState| < 0x1_0000_0000
    requires flat.numSemaphores == |c.semaphoreInitState| && flat.L2TCMInitSize == |c.L2TCMInitState|
    requires |flat.content.nspTables| == |c.nspTables| ==> flat.content == c
    ensures FlatOf(c) == flat <==> CountsFit(c) && |flat.content.nspTables| == |c.nspTables|
  {
    ExpressibleIsAllIff(c);
    assert |Expressible(c).nspTables| == |c.nspTables|;
    hide Expressible, CountsFit;
  }

  /** Both paths from the same calls to the flat form. */
  lemma BothPathsAgreeIff(hwVersionMajor: U8, hwVersionMinor: U8, calls: seq<BuildCall>, base: nat)
    requires AdmittedAll(Started(hwVersionMajor, hwVersionMinor), calls)
    requires CanFinalize(ApplyAll(Started(hwVersionMajor, hwVersionMinor), calls))
    ensures var d := ApplyAll(Started(hwVersionMajor, hwVersionMinor), calls);
            var f := FlatApplyAll(FlatStarted(hwVersionMajor, hwVersionMinor), calls);
            ReadAndTranslate(Image(Finished(d), 0, 0), base) == Some(FlatFinished(f))
            <==> CountsFit(Finished(d)) && d.content.scalars.numNSPs == HighestNumNSPs(calls)
  {
    var d := ApplyAll(Started(hwVersionMajor, hwVersionMinor), calls);
    var f := FlatApplyAll(FlatStarted(hwVersionMajor, hwVersionMinor), calls);
    RunsAgree(hwVersionMajor, hwVersionMinor, calls);
    FinishedAgree(d, f);
    FinishedIsReadable(d, f);
    RoundTrip(Finished(d), base);
    FlatOfIsAllIff(Finished(d), FlatFinished(f));
    hide *;
  }

  lemma FinishedIsReadable(d: Draft, f: FlatDraft)
    requires Agree(d, f) && CanFinalize(d)
    ensures WellFormed(Finished(d))
    ensures Finished(d).versionMajor == MAJOR_VERSION && Finished(d).versionMinor == MINOR_VERSION
    ensures |Finished(d).semaphoreInitState| < 0x1_0000 && |Finished(d).L2TCMInitState| < 0x1_0000_0000
  {
    hide ImageSize;
  }
}
