/**
 * `generateInsights` of src/utils/gnnModel.ts: an ordered ladder of conditions on the
 * patient data, each adding one fixed sentence, and two general sentences added when fewer
 * than two conditions held.
 *
 * Each sentence is named by an Insight, and Text gives its wording. Applies states the
 * condition under which the ladder adds each sentence, and LadderOrder the order in which
 * it tests them. InsightIds is the resulting specification: the sentences in ladder order
 * whose condition holds, padded when fewer than two. GenerateInsights is the ladder
 * itself and is proved to produce the texts of InsightIds.
 */
module Insights {
  import opened GnnData

  /** The sentences `generateInsights` can produce, in the order they appear in the ladder. */
  datatype Insight =
    | HormoneReceptor | BrcaParp | Her2Targeted | EgfrPositive | AlkRearranged | NoActionable
    | KrasResistance | KrasWildType | BrafV600 | BrafWildType | Tp53Aggressive
    | Progression | PositiveResponse | MolecularProfiling | ClinicalTrials

  /** The exact wording of each sentence. */
  function Text(i: Insight): string
  {
    match i
    case HormoneReceptor => "Hormone receptor status is a key factor in treatment selection for breast cancer."
    case BrcaParp => "BRCA mutations indicate potential benefit from PARP inhibitors and platinum-based chemotherapy."
    case Her2Targeted => "HER2-positive status suggests strong benefit from HER2-targeted therapies like Trastuzumab."
    case EgfrPositive => "EGFR mutation positive tumors typically respond well to EGFR tyrosine kinase inhibitors like Osimertinib."
    case AlkRearranged => "ALK rearrangements indicate potential significant benefit from ALK inhibitors like Crizotinib or Alectinib."
    case NoActionable => "Without actionable mutations, immunotherapy or chemotherapy may be appropriate first-line options."
    case KrasResistance => "KRAS mutations typically indicate resistance to EGFR inhibitors like Cetuximab."
    case KrasWildType => "KRAS wild-type status suggests potential benefit from EGFR inhibitors."
    case BrafV600 => "BRAF V600 mutations indicate potential benefit from targeted therapy with BRAF/MEK inhibitor combinations."
    case BrafWildType => "BRAF wild-type melanoma typically responds better to immunotherapy than targeted therapy."
    case Tp53Aggressive => "TP53 mutations may indicate more aggressive disease and potential resistance to certain therapies."
    case Progression => "Disease progression on previous therapy suggests need for alternative treatment approach."
    case PositiveResponse => "Previous positive response may indicate benefit from similar treatment mechanisms."
    case MolecularProfiling => "Molecular profiling can identify additional therapeutic targets beyond standard of care."
    case ClinicalTrials => "Consider clinical trials that match this molecular profile for additional treatment options."
  }

  /** The two general sentences, in the order they are added. */
  const Fallbacks := [MolecularProfiling, ClinicalTrials]

  /** Both previous-treatment fields are filled in. */
  predicate Treated(p: PatientData)
  {
    p.previousTreatments != [] && p.treatmentResponse != []
  }

  /** The condition under which the ladder adds a sentence. The general sentences are
      never added by a condition of their own, only as padding. */
  predicate Applies(i: Insight, p: PatientData): (b: bool)
    ensures b ==> i !in Fallbacks
  {
    match i
    case HormoneReceptor => p.cancerType == "breast-cancer"
    case BrcaParp => p.cancerType == "breast-cancer" && CarriesBrca(p)
    case Her2Targeted => p.cancerType == "breast-cancer" && Carries(p, "HER2/neu")
    case EgfrPositive => p.cancerType == "lung-cancer" && Carries(p, "EGFR")
    case AlkRearranged => p.cancerType == "lung-cancer" && Carries(p, "ALK")
    case NoActionable => p.cancerType == "lung-cancer" && !Carries(p, "EGFR") && !Carries(p, "ALK")
    case KrasResistance => p.cancerType == "colorectal-cancer" && Carries(p, "KRAS")
    case KrasWildType => p.cancerType == "colorectal-cancer" && !Carries(p, "KRAS")
    case BrafV600 => p.cancerType == "melanoma" && Carries(p, "BRAF")
    case BrafWildType => p.cancerType == "melanoma" && !Carries(p, "BRAF")
    case Tp53Aggressive => Carries(p, "TP53")
    case Progression => Treated(p) && p.treatmentResponse == "progressive"
    case PositiveResponse =>
      Treated(p) && (p.treatmentResponse == "complete" || p.treatmentResponse == "partial")
    case MolecularProfiling => false
    case ClinicalTrials => false
  }

  /** The order in which the ladder tests its conditions, block by block. */
  const BreastBlock := [HormoneReceptor, BrcaParp, Her2Targeted]
  const LungBlock := [EgfrPositive, AlkRearranged, NoActionable]
  const ColorectalBlock := [KrasResistance, KrasWildType]
  const MelanomaBlock := [BrafV600, BrafWildType]
  const MutationBlock := [Tp53Aggressive]
  const ResponseBlock := [Progression, PositiveResponse]
  const LadderOrder :=
    BreastBlock + LungBlock + ColorectalBlock + MelanomaBlock + MutationBlock + ResponseBlock

  /** The position of each sentence in the ladder, fallbacks last. */
  function Rank(i: Insight): nat
  {
    match i
    case HormoneReceptor => 0
    case BrcaParp => 1
    case Her2Targeted => 2
    case EgfrPositive => 3
    case AlkRearranged => 4
    case NoActionable => 5
    case KrasResistance => 6
    case KrasWildType => 7
    case BrafV600 => 8
    case BrafWildType => 9
    case Tp53Aggressive => 10
    case Progression => 11
    case PositiveResponse => 12
    case MolecularProfiling => 13
    case ClinicalTrials => 14
  }

  predicate Ascending(s: seq<Insight>)
  {
    forall a, b :: 0 <= a < b < |s| ==> Rank(s[a]) < Rank(s[b])
  }

  /** The sentences of `order` whose conditions hold, in that order. */
  function Fired(order: seq<Insight>, p: PatientData): (r: seq<Insight>)
    ensures |r| <= |order|
    ensures forall k :: 0 <= k < |r| ==> Applies(r[k], p)
  {
    if order == [] then []
    else Fired(order[..|order| - 1], p) + When(Applies(order[|order| - 1], p), order[|order| - 1])
  }

  /** The one-sentence list `[i]` when `c` holds, the empty list otherwise. */
  function When(c: bool, i: Insight): seq<Insight>
  {
    if c then [i] else []
  }

  /** The fallbacks appended to a list of fewer than two insights. */
  function Padded(fired: seq<Insight>): (r: seq<Insight>)
    ensures |r| >= 2
    ensures fired <= r
  {
    if |fired| < 2 then fired + Fallbacks else fired
  }

  /** The insights `generateInsights` reports. */
  function InsightIds(p: PatientData): (r: seq<Insight>)
    ensures |r| >= 2
  {
    Padded(Fired(LadderOrder, p))
  }

  /** The wording of a list of insights. */
  function Texts(ids: seq<Insight>): (r: seq<string>)
    ensures |r| == |ids|
    ensures forall k :: 0 <= k < |ids| ==> r[k] == Text(ids[k])
  {
    seq(|ids|, k requires 0 <= k < |ids| => Text(ids[k]))
  }

  /** Evaluating the ladder in two parts. */
  lemma {:induction false} FiredAppend(a: seq<Insight>, b: seq<Insight>, p: PatientData)
    ensures Fired(a + b, p) == Fired(a, p) + Fired(b, p)
  {
    if b == [] {
      assert a + b == a;
    } else {
      var b' := b[..|b| - 1];
      assert (a + b)[..|a + b| - 1] == a + b';
      assert (a + b)[|a + b| - 1] == b[|b| - 1];
      FiredAppend(a, b', p);
      var c := When(Applies(b[|b| - 1], p), b[|b| - 1]);
      assert Fired(a + b, p) == (Fired(a, p) + Fired(b', p)) + c;
      assert Fired(b, p) == Fired(b', p) + c;
    }
  }

  /** A sentence is reported exactly when it is in the order and its condition holds. */
  lemma {:induction false} FiredMembers(order: seq<Insight>, p: PatientData, i: Insight)
    ensures i in Fired(order, p) <==> i in order && Applies(i, p)
  {
    if order != [] {
      var n := |order| - 1;
      FiredMembers(order[..n], p, i);
      assert order == order[..n] + [order[n]];
    }
  }

  /** Evaluating an ascending order keeps it ascending. */
  lemma {:induction false} FiredAscending(order: seq<Insight>, p: PatientData)
    requires Ascending(order)
    ensures Ascending(Fired(order, p))
  {
    if order != [] {
      var n := |order| - 1;
      assert Ascending(order[..n]);
      FiredAscending(order[..n], p);
      var f := Fired(order[..n], p);
      forall j | 0 <= j < |f|
        ensures Rank(f[j]) < Rank(order[n])
      {
        FiredMembers(order[..n], p, f[j]);
        var k :| 0 <= k < n && order[..n][k] == f[j];
      }
    }
  }

  /** A list ascending by rank holds each sentence at most once. */
  lemma {:induction false} AscendingCount(s: seq<Insight>, i: Insight)
    requires Ascending(s)
    ensures multiset(s)[i] == if i in s then 1 else 0
  {
    if s != [] {
      var n := |s| - 1;
      assert s == s[..n] + [s[n]];
      assert Ascending(s[..n]);
      AscendingCount(s[..n], i);
    }
  }

  lemma LadderOrderAscending()
    ensures Ascending(LadderOrder)
  {
    assert LadderOrder == [HormoneReceptor, BrcaParp, Her2Targeted, EgfrPositive, AlkRearranged,
      NoActionable, KrasResistance, KrasWildType, BrafV600, BrafWildType, Tp53Aggressive,
      Progression, PositiveResponse];
  }

  /** A ladder block of one, two or three conditions, evaluated. */
  lemma FiredBlock(order: seq<Insight>, p: PatientData)
    requires 1 <= |order| <= 3
    ensures |order| == 1 ==> Fired(order, p) == When(Applies(order[0], p), order[0])
    ensures |order| == 2 ==>
              Fired(order, p) == When(Applies(order[0], p), order[0]) + When(Applies(order[1], p), order[1])
    ensures |order| == 3 ==>
              Fired(order, p) == When(Applies(order[0], p), order[0]) + When(Applies(order[1], p), order[1]) +
                                 When(Applies(order[2], p), order[2])
  {
    assert order[..1][..0] == [];
    if |order| >= 2 {
      assert order[..2][..1] == order[..1];
    }
    if |order| == 3 {
      assert order[..3][..2] == order[..2];
    }
    assert order[..|order|] == order;
  }

  /** The ladder evaluates block by block. */
  lemma FiredBlocks(p: PatientData)
    ensures Fired(LadderOrder, p) ==
              Fired(BreastBlock, p) + Fired(LungBlock, p) + Fired(ColorectalBlock, p) +
              Fired(MelanomaBlock, p) + Fired(MutationBlock, p) + Fired(ResponseBlock, p)
  {
    var b := BreastBlock;
    var l := b + LungBlock;
    var c := l + ColorectalBlock;
    var m := c + MelanomaBlock;
    var u := m + MutationBlock;
    FiredAppend(b, LungBlock, p);
    FiredAppend(l, ColorectalBlock, p);
    FiredAppend(c, MelanomaBlock, p);
    FiredAppend(m, MutationBlock, p);
    FiredAppend(u, ResponseBlock, p);
  }

  /** The breast-cancer block of the ladder: appends the sentences of its conditions that hold. */
  method PushBreastInsights(p: PatientData, ids: seq<Insight>) returns (r: seq<Insight>)
    ensures r == ids + Fired(BreastBlock, p)
  {
    r := ids;
    if p.cancerType == "breast-cancer" {
      r := r + [HormoneReceptor];
      if Carries(p, "BRCA1") || Carries(p, "BRCA2") {
        r := r + [BrcaParp];
      }
      if Carries(p, "HER2/neu") {
        r := r + [Her2Targeted];
      }
    }
    FiredBlock(BreastBlock, p);
  }

  /** The lung-cancer block of the ladder: appends the sentences of its conditions that hold. */
  method PushLungInsights(p: PatientData, ids: seq<Insight>) returns (r: seq<Insight>)
    ensures r == ids + Fired(LungBlock, p)
  {
    r := ids;
    if p.cancerType == "lung-cancer" {
      if Carries(p, "EGFR") {
        r := r + [EgfrPositive];
      }
      if Carries(p, "ALK") {
        r := r + [AlkRearranged];
      }
      if !Carries(p, "EGFR") && !Carries(p, "ALK") {
        r := r + [NoActionable];
      }
    }
    FiredBlock(LungBlock, p);
  }

  /** The colorectal-cancer block of the ladder: appends the sentences of its conditions that hold. */
  method PushColorectalInsights(p: PatientData, ids: seq<Insight>) returns (r: seq<Insight>)
    ensures r == ids + Fired(ColorectalBlock, p)
  {
    r := ids;
    if p.cancerType == "colorectal-cancer" {
      if Carries(p, "KRAS") {
        r := r + [KrasResistance];
      } else {
        r := r + [KrasWildType];
      }
    }
    FiredBlock(ColorectalBlock, p);
  }

  /** The melanoma block of the ladder: appends the sentences of its conditions that hold. */
  method PushMelanomaInsights(p: PatientData, ids: seq<Insight>) returns (r: seq<Insight>)
    ensures r == ids + Fired(MelanomaBlock, p)
  {
    r := ids;
    if p.cancerType == "melanoma" {
      if Carries(p, "BRAF") {
        r := r + [BrafV600];
      } else {
        r := r + [BrafWildType];
      }
    }
    FiredBlock(MelanomaBlock, p);
  }

  /** The TP53 test of the ladder: appends the sentences of its conditions that hold. */
  method PushMutationInsights(p: PatientData, ids: seq<Insight>) returns (r: seq<Insight>)
    ensures r == ids + Fired(MutationBlock, p)
  {
    r := ids;
    if Carries(p, "TP53") {
      r := r + [Tp53Aggressive];
    }
    FiredBlock(MutationBlock, p);
  }

  /** The previous-treatment block of the ladder: appends the sentences of its conditions that hold. */
  method PushResponseInsights(p: PatientData, ids: seq<Insight>) returns (r: seq<Insight>)
    ensures r == ids + Fired(ResponseBlock, p)
  {
    r := ids;
    if p.previousTreatments != [] && p.treatmentResponse != [] {
      if p.treatmentResponse == "progressive" {
        r := r + [Progression];
      } else if p.treatmentResponse == "complete" || p.treatmentResponse == "partial" {
        r := r + [PositiveResponse];
      }
    }
    FiredBlock(ResponseBlock, p);
    ResponsesDistinct();
  }

  /** `generateInsights`: the ladder's blocks in order, then the padding. The sentences are
      pushed as Insight names and worded once at the end, which gives the same strings since
      each name has one fixed text. The `treatments` argument is never read. */
  method GenerateInsights(p: PatientData, treatments: seq<Treatment>) returns (insights: seq<string>)
    ensures insights == Texts(InsightIds(p))
  {
    var ids: seq<Insight> := [];
    ids := PushBreastInsights(p, ids);
    assert ids == Fired(BreastBlock, p);
    ids := PushLungInsights(p, ids);
    ids := PushColorectalInsights(p, ids);
    ids := PushMelanomaInsights(p, ids);
    ids := PushMutationInsights(p, ids);
    ids := PushResponseInsights(p, ids);
    FiredBlocks(p);
    if |ids| < 2 {
      ids := ids + [MolecularProfiling, ClinicalTrials];
    }
    insights := Texts(ids);
  }

  /** The three responses the ladder tests are different strings. */
  lemma ResponsesDistinct()
    ensures "progressive" != "complete" && "progressive" != "partial"
  {
    assert |"progressive"| == 11 && |"complete"| == 8 && |"partial"| == 7;
  }

  /** The ladder tests every sentence except the two general ones. */
  lemma LadderOrderComplete(i: Insight)
    ensures i in LadderOrder <==> i != MolecularProfiling && i != ClinicalTrials
  {
    assert LadderOrder == [HormoneReceptor, BrcaParp, Her2Targeted, EgfrPositive, AlkRearranged,
      NoActionable, KrasResistance, KrasWildType, BrafV600, BrafWildType, Tp53Aggressive,
      Progression, PositiveResponse];
  }

  /** The reported sentences come in ladder order with the general sentences last, so none
      is reported twice. */
  lemma InsightsInLadderOrder(p: PatientData)
    ensures Ascending(InsightIds(p))
  {
    var f := Fired(LadderOrder, p);
    LadderOrderAscending();
    FiredAscending(LadderOrder, p);
    if |f| < 2 {
      forall j | 0 <= j < |f|
        ensures Rank(f[j]) < 13
      {
        FiredMembers(LadderOrder, p, f[j]);
        LadderOrderComplete(f[j]);
      }
    }
  }

  /** Each sentence of the ladder is reported once when its condition holds and not at
      all otherwise. */
  lemma InsightCount(p: PatientData, i: Insight)
    requires i != MolecularProfiling && i != ClinicalTrials
    ensures multiset(InsightIds(p))[i] == if Applies(i, p) then 1 else 0
  {
    var f := Fired(LadderOrder, p);
    assert i in InsightIds(p) <==> i in f by {
      if |f| < 2 {
        assert InsightIds(p) == f + Fallbacks && i !in Fallbacks;
      }
    }
    assert i in f <==> Applies(i, p) by {
      FiredMembers(LadderOrder, p, i);
      LadderOrderComplete(i);
    }
    InsightsInLadderOrder(p);
    AscendingCount(InsightIds(p), i);
  }

  /** The general sentences appear exactly when fewer than two conditions held, and then
      they close the list, after the sentences that fired. */
  lemma FallbacksIff(p: PatientData)
    ensures var fired := Fired(LadderOrder, p);
            var r := InsightIds(p);
            (MolecularProfiling in r <==> |fired| < 2) &&
            (ClinicalTrials in r <==> |fired| < 2) &&
            (|fired| < 2 ==> |r| == |fired| + 2 && r[..|fired|] == fired && r[|fired|..] == Fallbacks) &&
            (|fired| >= 2 ==> r == fired)
  {
    var fired := Fired(LadderOrder, p);
    FiredMembers(LadderOrder, p, MolecularProfiling);
    FiredMembers(LadderOrder, p, ClinicalTrials);
    var r := InsightIds(p);
    if |fired| < 2 {
      assert r[..|fired|] == fired;
      assert r[|fired|..] == Fallbacks;
    }
  }

  /** A patient of no cancer type the ladder names, with no TP53 and without both
      previous-treatment fields, receives exactly the two general sentences. */
  lemma NothingFiredGivesFallbacks(p: PatientData)
    requires p.cancerType !in ["breast-cancer", "lung-cancer", "colorectal-cancer", "melanoma"]
    requires !Carries(p, "TP53") && !Treated(p)
    ensures InsightIds(p) == Fallbacks
  {
    var f := Fired(LadderOrder, p);
    if f != [] {
      FiredMembers(LadderOrder, p, f[0]);
      assert false;
    }
  }

  /** For lung cancer, the no-actionable-mutation sentence appears exactly when neither
      EGFR nor ALK is selected, and never for another cancer type. */
  lemma NoActionableIff(p: PatientData)
    ensures NoActionable in InsightIds(p) <==>
              p.cancerType == "lung-cancer" && !Carries(p, "EGFR") && !Carries(p, "ALK")
  {
    InsightCount(p, NoActionable);
  }

  /** Colorectal cancer gets exactly one KRAS sentence, chosen by the KRAS selection. */
  lemma ColorectalKrasExactlyOne(p: PatientData)
    requires p.cancerType == "colorectal-cancer"
    ensures multiset(InsightIds(p))[KrasResistance] + multiset(InsightIds(p))[KrasWildType] == 1
    ensures KrasResistance in InsightIds(p) <==> Carries(p, "KRAS")
  {
    InsightCount(p, KrasResistance);
    InsightCount(p, KrasWildType);
  }

  /** Melanoma gets exactly one BRAF sentence, chosen by the BRAF selection. */
  lemma MelanomaBrafExactlyOne(p: PatientData)
    requires p.cancerType == "melanoma"
    ensures multiset(InsightIds(p))[BrafV600] + multiset(InsightIds(p))[BrafWildType] == 1
    ensures BrafV600 in InsightIds(p) <==> Carries(p, "BRAF")
  {
    InsightCount(p, BrafV600);
    InsightCount(p, BrafWildType);
  }

  /** The previous-treatment sentences need both previous-treatment fields filled in, and
      at most one of them appears. */
  lemma ResponseInsights(p: PatientData)
    ensures Progression in InsightIds(p) <==> Treated(p) && p.treatmentResponse == "progressive"
    ensures PositiveResponse in InsightIds(p) <==>
              Treated(p) && (p.treatmentResponse == "complete" || p.treatmentResponse == "partial")
    ensures !(Progression in InsightIds(p) && PositiveResponse in InsightIds(p))
  {
    InsightCount(p, Progression);
    InsightCount(p, PositiveResponse);
    ResponsesDistinct();
  }

  /** For breast cancer the hormone-receptor sentence always comes first. */
  lemma BreastStartsWithHormoneReceptor(p: PatientData)
    requires p.cancerType == "breast-cancer"
    ensures InsightIds(p)[0] == HormoneReceptor
  {
    FiredBlocks(p);
    FiredBlock(BreastBlock, p);
  }
}
