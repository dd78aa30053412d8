/**
 * `predictTreatments` of src/utils/gnnModel.ts: a fixed table from cancer type to three
 * treatment records, four mutation rules applied in order (an Osimertinib bump for EGFR in
 * lung cancer, an appended PARP inhibitor for BRCA1/BRCA2, a Trastuzumab bump for HER2/neu
 * in breast cancer, a Crizotinib bump for ALK in lung cancer), then a sort by efficacy,
 * highest first.
 */
module GnnModel {
  import opened GnnData
  import opened EfficacySort

  // The rule table, scores in hundredths.

  const Tamoxifen := Treatment("Tamoxifen", 82, 75, "Selective estrogen receptor modulator (SERM)",
    ["Hot flashes", "Fatigue", "Mood changes", "Blood clots"],
    "Blocks estrogen receptors in breast cancer cells")
  const Trastuzumab := Treatment("Trastuzumab (Herceptin)", 79, 89, "Monoclonal antibody targeting HER2",
    ["Heart problems", "Fever", "Chills", "Headache"],
    "Targets HER2 protein on cancer cells")
  const Palbociclib := Treatment("Palbociclib", 76, 65, "CDK4/6 inhibitor",
    ["Low white blood cell count", "Fatigue", "Nausea"],
    "Blocks cell division by inhibiting CDK4/6")

  const Osimertinib := Treatment("Osimertinib", 85, 72, "EGFR tyrosine kinase inhibitor",
    ["Rash", "Diarrhea", "Dry skin", "Reduced appetite"],
    "Targets EGFR mutations, especially T790M")
  const PembrolizumabLung := Treatment("Pembrolizumab", 75, 78, "PD-1 inhibitor immunotherapy",
    ["Fatigue", "Rash", "Immune-related adverse events"],
    "Blocks PD-1 to activate T-cells against cancer")
  const Crizotinib := Treatment("Crizotinib", 82, 81, "ALK inhibitor",
    ["Vision problems", "Nausea", "Diarrhea", "Liver problems"],
    "Targets ALK gene rearrangements")

  const Folfox := Treatment("FOLFOX", 80, 85, "Combination chemotherapy (5-FU, leucovorin, oxaliplatin)",
    ["Neuropathy", "Nausea", "Low blood counts", "Fatigue"],
    "Multiple mechanisms to disrupt cell division")
  const Cetuximab := Treatment("Cetuximab", 73, 79, "EGFR inhibitor (monoclonal antibody)",
    ["Skin rash", "Diarrhea", "Fatigue", "Magnesium deficiency"],
    "Blocks EGFR signaling (effective in KRAS wild-type)")
  const Bevacizumab := Treatment("Bevacizumab", 75, 67, "VEGF inhibitor (angiogenesis inhibitor)",
    ["High blood pressure", "Bleeding", "Wound healing problems"],
    "Blocks blood vessel formation to tumors")

  const Enzalutamide := Treatment("Enzalutamide", 87, 82, "Androgen receptor inhibitor",
    ["Fatigue", "Hot flashes", "Hypertension", "Seizures (rare)"],
    "Blocks androgen receptor signaling")
  const Abiraterone := Treatment("Abiraterone", 79, 75, "CYP17A1 inhibitor",
    ["Fluid retention", "Joint swelling", "Low potassium"],
    "Blocks androgen production pathways")
  const Docetaxel := Treatment("Docetaxel", 72, 70, "Taxane chemotherapy",
    ["Hair loss", "Numbness", "Nail changes", "Low blood counts"],
    "Prevents cell division by affecting microtubules")

  const PembrolizumabMelanoma := Treatment("Pembrolizumab", 88, 82, "PD-1 inhibitor immunotherapy",
    ["Fatigue", "Rash", "Colitis", "Endocrine disorders"],
    "Activates T-cells to attack melanoma cells")
  const DabrafenibTrametinib := Treatment("Dabrafenib + Trametinib", 84, 85, "BRAF + MEK inhibitor combination",
    ["Fever", "Rash", "Joint pain", "Heart problems"],
    "Targets the MAPK pathway in BRAF-mutated melanoma")
  const Ipilimumab := Treatment("Ipilimumab", 75, 70, "CTLA-4 inhibitor immunotherapy",
    ["Serious immune-related adverse events", "Rash", "Diarrhea"],
    "Enhances T-cell activation against melanoma")

  const Cisplatin := Treatment("Cisplatin", 70, 65, "Platinum-based chemotherapy",
    ["Kidney damage", "Hearing loss", "Nerve damage", "Nausea"],
    "Cross-links DNA, preventing cancer cell division")
  const Doxorubicin := Treatment("Doxorubicin", 65, 60, "Anthracycline chemotherapy",
    ["Heart damage", "Hair loss", "Nausea", "Low blood counts"],
    "Intercalates DNA and inhibits topoisomerase II")
  const Nivolumab := Treatment("Immunotherapy (Nivolumab)", 68, 58, "PD-1 inhibitor",
    ["Fatigue", "Rash", "Autoimmune reactions"],
    "Enhances T-cell immune response against cancer cells")

  /** The record the BRCA rule appends. */
  const Olaparib := Treatment("PARP Inhibitor (Olaparib)", 86, 80, "PARP enzyme inhibitor",
    ["Anemia", "Fatigue", "Nausea", "Neutropenia"],
    "Exploits synthetic lethality in BRCA-mutated cancers")

  const TreatmentTable: map<string, seq<Treatment>> := map[
    "breast-cancer" := [Tamoxifen, Trastuzumab, Palbociclib],
    "lung-cancer" := [Osimertinib, PembrolizumabLung, Crizotinib],
    "colorectal-cancer" := [Folfox, Cetuximab, Bevacizumab],
    "prostate-cancer" := [Enzalutamide, Abiraterone, Docetaxel],
    "melanoma" := [PembrolizumabMelanoma, DabrafenibTrametinib, Ipilimumab]]

  const DefaultTreatments := [Cisplatin, Doxorubicin, Nivolumab]

  /** The cancer types the table knows. */
  const KnownCancerTypes: set<string> :=
    {"breast-cancer", "lung-cancer", "colorectal-cancer", "prostate-cancer", "melanoma"}

  /** The table has a list for exactly the known cancer types. */
  lemma TableKeys()
    ensures TreatmentTable.Keys == KnownCancerTypes
  {
  }

  /** A cancer type that is not known gets the default list. */
  lemma UnknownTypeBase(cancerType: string)
    requires cancerType !in KnownCancerTypes
    ensures BaseTreatments(cancerType) == DefaultTreatments
  {
    TableKeys();
  }

  /** `treatments[patientData.cancerType] || defaultTreatments` */
  function BaseTreatments(cancerType: string): (r: seq<Treatment>)
    ensures |r| == 3
    ensures cancerType !in TreatmentTable ==> r == DefaultTreatments
  {
    if cancerType in TreatmentTable then TreatmentTable[cancerType] else DefaultTreatments
  }

  /** One record after the `map` step that adds `delta` to the efficacy of records called
      `name`. */
  function Bumped(t: Treatment, name: string, delta: int): Treatment
  {
    if t.name == name then t.(efficacyScore := t.efficacyScore + delta) else t
  }

  /** The `map` that adds `delta` to the efficacy of every record called `name`: a new
      list in which only those efficacies differ. */
  function Bump(ts: seq<Treatment>, name: string, delta: int): (r: seq<Treatment>)
    ensures |r| == |ts|
    ensures forall i :: 0 <= i < |ts| ==> r[i].name == ts[i].name
    ensures forall i :: 0 <= i < |ts| ==> r[i] == ts[i].(efficacyScore := r[i].efficacyScore)
    ensures forall i :: 0 <= i < |ts| ==>
      r[i].efficacyScore == ts[i].efficacyScore + (if ts[i].name == name then delta else 0)
  {
    if ts == [] then [] else [Bumped(ts[0], name, delta)] + Bump(ts[1..], name, delta)
  }

  // The four mutation rules, in the order they are applied.

  predicate EgfrRule(p: PatientData) { Carries(p, "EGFR") && p.cancerType == "lung-cancer" }
  predicate Her2Rule(p: PatientData) { Carries(p, "HER2/neu") && p.cancerType == "breast-cancer" }
  predicate AlkRule(p: PatientData) { Carries(p, "ALK") && p.cancerType == "lung-cancer" }

  /** The four rules applied in source order to the list looked up for the patient. */
  function ApplyRules(base: seq<Treatment>, p: PatientData): (r: seq<Treatment>)
    ensures |r| == |base| + (if CarriesBrca(p) then 1 else 0)
  {
    var afterEgfr := if EgfrRule(p) then Bump(base, "Osimertinib", 10) else base;
    var afterBrca := if CarriesBrca(p) then afterEgfr + [Olaparib] else afterEgfr;
    var afterHer2 := if Her2Rule(p) then Bump(afterBrca, "Trastuzumab (Herceptin)", 15) else afterBrca;
    if AlkRule(p) then Bump(afterHer2, "Crizotinib", 12) else afterHer2
  }

  /** The list before sorting: the looked-up list with the four rules applied. */
  function Adjusted(p: PatientData): (r: seq<Treatment>)
    ensures |r| >= 3
  {
    ApplyRules(BaseTreatments(p.cancerType), p)
  }

  /** What `predictTreatments` returns. */
  function Predict(p: PatientData): (r: seq<Treatment>)
    ensures |r| == |Adjusted(p)|
  {
    SortDesc(Adjusted(p))
  }

  /** The rule steps of `predictTreatments`: the local list is reassigned by each rule and
      the PARP record is pushed onto it. */
  method ApplyMutationRules(base: seq<Treatment>, p: PatientData) returns (recommended: seq<Treatment>)
    ensures recommended == ApplyRules(base, p)
    ensures |recommended| == |base| + |OlaparibIf(p)|
  {
    recommended := base;
    if Carries(p, "EGFR") && p.cancerType == "lung-cancer" {
      recommended := Bump(recommended, "Osimertinib", 10);
    }
    if Carries(p, "BRCA1") || Carries(p, "BRCA2") {
      recommended := recommended + [Olaparib];
    }
    if Carries(p, "HER2/neu") && p.cancerType == "breast-cancer" {
      recommended := Bump(recommended, "Trastuzumab (Herceptin)", 15);
    }
    if Carries(p, "ALK") && p.cancerType == "lung-cancer" {
      recommended := Bump(recommended, "Crizotinib", 12);
    }
  }

  /** `predictTreatments`: look the list up, apply the rules, then sort the list in place. */
  method PredictTreatments(p: PatientData) returns (ranked: seq<Treatment>)
    ensures ranked == Predict(p)
    ensures SortedByEfficacy(ranked)
    ensures multiset(ranked) == multiset(Adjusted(p))
    ensures |ranked| == if CarriesBrca(p) then 4 else 3
  {
    var recommended := ApplyMutationRules(BaseTreatments(p.cancerType), p);
    var a := new Treatment[|recommended|](i requires 0 <= i < |recommended| => recommended[i]);
    assert a[..] == recommended;
    SortByEfficacy(a);
    ranked := a[..];
    PredictSortedPermutation(p);
    PredictLength(p);
  }

  /** The result is in non-increasing order of efficacy and is a permutation of the
      adjusted list. */
  lemma PredictSortedPermutation(p: PatientData)
    ensures SortedByEfficacy(Predict(p))
    ensures multiset(Predict(p)) == multiset(Adjusted(p))
  {
    SortDescSorted(Adjusted(p));
    SortDescPermutes(Adjusted(p));
  }

  /** Three records, or four when BRCA1 or BRCA2 is selected. */
  lemma PredictLength(p: PatientData)
    ensures |Predict(p)| == if CarriesBrca(p) then 4 else 3
  {
    SortDescPermutes(Adjusted(p));
    assert |Predict(p)| == |multiset(Predict(p))| == |multiset(Adjusted(p))| == |Adjusted(p)|;
  }

  /** The PARP record the BRCA rule appends, or nothing. */
  function OlaparibIf(p: PatientData): seq<Treatment>
  {
    if CarriesBrca(p) then [Olaparib] else []
  }

  /** Bumping a list in which exactly the record at `k` has the name changes only that
      record's efficacy. */
  lemma BumpSingle(ts: seq<Treatment>, k: nat, name: string, delta: int)
    requires k < |ts| && ts[k].name == name
    requires forall i :: 0 <= i < |ts| && i != k ==> ts[i].name != name
    ensures Bump(ts, name, delta) == ts[k := ts[k].(efficacyScore := ts[k].efficacyScore + delta)]
  {
    var r, t := Bump(ts, name, delta), ts[k := ts[k].(efficacyScore := ts[k].efficacyScore + delta)];
    forall i | 0 <= i < |ts|
      ensures r[i] == t[i]
    {
      assert r[i] == ts[i].(efficacyScore := r[i].efficacyScore);
      if i != k {
        assert r[i].efficacyScore == ts[i].efficacyScore;
      }
    }
  }

  /** The lung-cancer list of the table. */
  lemma LungBase(cancerType: string)
    requires cancerType == "lung-cancer"
    ensures BaseTreatments(cancerType) == [Osimertinib, PembrolizumabLung, Crizotinib]
  {
  }

  /** The breast-cancer list of the table. */
  lemma BreastBase(cancerType: string)
    requires cancerType == "breast-cancer"
    ensures BaseTreatments(cancerType) == [Tamoxifen, Trastuzumab, Palbociclib]
  {
  }

  /** The lung-cancer records once the rules have run. */
  function LungList(p: PatientData): seq<Treatment>
  {
    [Osimertinib.(efficacyScore := if Carries(p, "EGFR") then 95 else 85),
     PembrolizumabLung,
     Crizotinib.(efficacyScore := if Carries(p, "ALK") then 94 else 82)] + OlaparibIf(p)
  }

  /** The breast-cancer records once the rules have run. */
  function BreastList(p: PatientData): seq<Treatment>
  {
    [Tamoxifen, Trastuzumab.(efficacyScore := if Carries(p, "HER2/neu") then 94 else 79), Palbociclib]
    + OlaparibIf(p)
  }

  /** The `map` step works record by record, so it distributes over concatenation. */
  lemma {:induction false} BumpAppend(x: seq<Treatment>, y: seq<Treatment>, name: string, delta: int)
    ensures Bump(x + y, name, delta) == Bump(x, name, delta) + Bump(y, name, delta)
  {
    if x == [] {
      assert x + y == y;
    } else {
      assert (x + y)[1..] == x[1..] + y;
      BumpAppend(x[1..], y, name, delta);
    }
  }

  /** A list holding no record of the name is left as it is. */
  lemma BumpOthers(ts: seq<Treatment>, name: string, delta: int)
    requires forall t :: t in ts ==> t.name != name
    ensures Bump(ts, name, delta) == ts
  {
    var r := Bump(ts, name, delta);
    forall i | 0 <= i < |ts|
      ensures r[i] == ts[i]
    {
      assert ts[i] in ts;
      assert r[i] == ts[i].(efficacyScore := r[i].efficacyScore);
    }
  }

  /** Bumping three records followed by records of other names bumps the three one by one
      and leaves the rest alone. */
  lemma BumpThree(a: Treatment, b: Treatment, c: Treatment, extra: seq<Treatment>, name: string, delta: int)
    requires forall t :: t in extra ==> t.name != name
    ensures Bump([a, b, c] + extra, name, delta) ==
      [Bumped(a, name, delta), Bumped(b, name, delta), Bumped(c, name, delta)] + extra
  {
    BumpAppend([a, b, c], extra, name, delta);
    BumpOthers(extra, name, delta);
    assert [a, b, c][1..] == [b, c] && [b, c][1..] == [c] && [c][1..] == [];
  }

  /** On the lung-cancer list, EGFR raises Osimertinib by 10 and ALK raises Crizotinib by
      12; the HER2/neu rule does not fire. */
  lemma LungRules(base: seq<Treatment>, p: PatientData)
    requires p.cancerType == "lung-cancer" && base == [Osimertinib, PembrolizumabLung, Crizotinib]
    ensures ApplyRules(base, p) == LungList(p)
  {
    var osimertinib := Osimertinib.(efficacyScore := if Carries(p, "EGFR") then 95 else 85);
    var crizotinib := Crizotinib.(efficacyScore := if Carries(p, "ALK") then 94 else 82);
    var afterEgfr := if EgfrRule(p) then Bump(base, "Osimertinib", 10) else base;
    assert afterEgfr == [osimertinib, PembrolizumabLung, Crizotinib] by {
      if Carries(p, "EGFR") {
        assert base == [Osimertinib, PembrolizumabLung, Crizotinib] + [];
        BumpThree(Osimertinib, PembrolizumabLung, Crizotinib, [], "Osimertinib", 10);
      }
    }
    var afterBrca := if CarriesBrca(p) then afterEgfr + [Olaparib] else afterEgfr;
    assert afterBrca == [osimertinib, PembrolizumabLung, Crizotinib] + OlaparibIf(p);
    assert !Her2Rule(p) by {
      assert |p.cancerType| != |"breast-cancer"|;
    }
    var afterAlk := if AlkRule(p) then Bump(afterBrca, "Crizotinib", 12) else afterBrca;
    assert afterAlk == [osimertinib, PembrolizumabLung, crizotinib] + OlaparibIf(p) by {
      if Carries(p, "ALK") {
        BumpThree(osimertinib, PembrolizumabLung, Crizotinib, OlaparibIf(p), "Crizotinib", 12);
      }
    }
  }

  /** On the breast-cancer list, HER2/neu raises Trastuzumab by 15; the EGFR and ALK rules
      do not fire. */
  lemma BreastRules(base: seq<Treatment>, p: PatientData)
    requires p.cancerType == "breast-cancer" && base == [Tamoxifen, Trastuzumab, Palbociclib]
    ensures ApplyRules(base, p) == BreastList(p)
  {
    assert !EgfrRule(p) && !AlkRule(p) by {
      assert |p.cancerType| != |"lung-cancer"|;
    }
    var afterBrca := base + OlaparibIf(p);
    if Carries(p, "HER2/neu") {
      BumpThree(Tamoxifen, Trastuzumab, Palbociclib, OlaparibIf(p), "Trastuzumab (Herceptin)", 15);
    }
  }

  /** Outside lung and breast cancer no score rule fires: only the PARP record may be
      appended. */
  lemma OtherRules(base: seq<Treatment>, p: PatientData)
    requires p.cancerType != "lung-cancer" && p.cancerType != "breast-cancer"
    ensures ApplyRules(base, p) == base + OlaparibIf(p)
  {
  }

  /** Lung cancer: EGFR raises Osimertinib from 85 to 95 and ALK raises Crizotinib from 82
      to 94; nothing else changes. */
  lemma LungAdjusted(p: PatientData)
    requires p.cancerType == "lung-cancer"
    ensures Adjusted(p) == LungList(p)
  {
    LungBase(p.cancerType);
    LungRules(BaseTreatments(p.cancerType), p);
  }

  /** Breast cancer: HER2/neu raises Trastuzumab from 79 to 94; nothing else changes. */
  lemma BreastAdjusted(p: PatientData)
    requires p.cancerType == "breast-cancer"
    ensures Adjusted(p) == BreastList(p)
  {
    BreastBase(p.cancerType);
    BreastRules(BaseTreatments(p.cancerType), p);
  }

  /** No score rule fires outside its cancer type: for every other type the base list is
      kept as it is, whatever the mutations. */
  lemma OtherTypesKeepBase(p: PatientData)
    requires p.cancerType != "lung-cancer" && p.cancerType != "breast-cancer"
    ensures Adjusted(p) == BaseTreatments(p.cancerType) + OlaparibIf(p)
  {
    OtherRules(BaseTreatments(p.cancerType), p);
  }

  // Which record the sort puts first, on the lists of records themselves.

  lemma LungEgfrTop(p: PatientData)
    requires Carries(p, "EGFR")
    ensures |SortDesc(LungList(p))| >= 3 && SortDesc(LungList(p))[0] == Osimertinib.(efficacyScore := 95)
  {
    StrictMaximumFirst(LungList(p), 0);
  }

  lemma LungAlkTop(p: PatientData)
    requires Carries(p, "ALK") && !Carries(p, "EGFR")
    ensures |SortDesc(LungList(p))| >= 3 && SortDesc(LungList(p))[0] == Crizotinib.(efficacyScore := 94)
  {
    StrictMaximumFirst(LungList(p), 2);
  }

  lemma BreastHer2Top(p: PatientData)
    requires Carries(p, "HER2/neu")
    ensures |SortDesc(BreastList(p))| >= 3 && SortDesc(BreastList(p))[0] == Trastuzumab.(efficacyScore := 94)
  {
    StrictMaximumFirst(BreastList(p), 1);
  }

  lemma LungAlkPresent(p: PatientData)
    requires Carries(p, "ALK")
    ensures Crizotinib.(efficacyScore := 94) in SortDesc(LungList(p))
  {
    var s := LungList(p);
    SortDescPermutes(s);
    assert s[2] == Crizotinib.(efficacyScore := 94);
    assert Crizotinib.(efficacyScore := 94) in multiset(SortDesc(s));
  }

  /** EGFR in lung cancer: Osimertinib, raised to 95, ranks first. */
  lemma EgfrLungRanksFirst(p: PatientData)
    requires p.cancerType == "lung-cancer" && Carries(p, "EGFR")
    ensures |Predict(p)| >= 3 && Predict(p)[0] == Osimertinib.(efficacyScore := 95)
  {
    LungAdjusted(p);
    LungEgfrTop(p);
  }

  /** HER2/neu in breast cancer: Trastuzumab, raised from 79 to 94, ranks first. */
  lemma Her2BreastRanksFirst(p: PatientData)
    requires p.cancerType == "breast-cancer" && Carries(p, "HER2/neu")
    ensures |Predict(p)| >= 3 && Predict(p)[0] == Trastuzumab.(efficacyScore := 94)
  {
    BreastAdjusted(p);
    BreastHer2Top(p);
  }

  /** ALK in lung cancer: Crizotinib is recommended with its efficacy raised from 82 to 94. */
  lemma AlkLungBump(p: PatientData)
    requires p.cancerType == "lung-cancer" && Carries(p, "ALK")
    ensures Crizotinib.(efficacyScore := 94) in Predict(p)
  {
    LungAdjusted(p);
    LungAlkPresent(p);
  }

  /** ALK without EGFR in lung cancer: the raised Crizotinib ranks first. */
  lemma AlkLungRanksFirst(p: PatientData)
    requires p.cancerType == "lung-cancer" && Carries(p, "ALK") && !Carries(p, "EGFR")
    ensures |Predict(p)| >= 3 && Predict(p)[0] == Crizotinib.(efficacyScore := 94)
  {
    LungAdjusted(p);
    LungAlkTop(p);
  }

  /** The default records sort as Cisplatin (70), Nivolumab (68), Doxorubicin (65). */
  lemma DefaultOrderPlain()
    ensures SortDesc(DefaultTreatments) == [Cisplatin, Nivolumab, Doxorubicin]
  {
    var ranked := [Cisplatin, Nivolumab, Doxorubicin];
    assert StrictlyDecreasing(ranked);
    assert multiset(DefaultTreatments) == multiset(ranked);
    SortDescOfDistinct(DefaultTreatments, ranked);
  }

  /** With the PARP record (86) appended, it comes first. */
  lemma DefaultOrderBrca()
    ensures SortDesc(DefaultTreatments + [Olaparib]) == [Olaparib, Cisplatin, Nivolumab, Doxorubicin]
  {
    var ranked := [Olaparib, Cisplatin, Nivolumab, Doxorubicin];
    assert StrictlyDecreasing(ranked);
    assert multiset(DefaultTreatments + [Olaparib]) == multiset(ranked);
    SortDescOfDistinct(DefaultTreatments + [Olaparib], ranked);
  }

  /** The default records, with or without the PARP record, sort as the PARP record (86),
      Cisplatin (70), Nivolumab (68), Doxorubicin (65). */
  lemma DefaultOrder(extra: seq<Treatment>)
    requires extra == [] || extra == [Olaparib]
    ensures SortDesc(DefaultTreatments + extra) == extra + [Cisplatin, Nivolumab, Doxorubicin]
  {
    if extra == [] {
      assert DefaultTreatments + extra == DefaultTreatments;
      DefaultOrderPlain();
    } else {
      DefaultOrderBrca();
    }
  }

  /** A cancer type outside the table gets the default records, ranked Cisplatin (70),
      Nivolumab (68), Doxorubicin (65), after the PARP inhibitor (86) when BRCA is selected. */
  lemma UnknownTypeDefaultOrder(p: PatientData)
    requires p.cancerType !in KnownCancerTypes
    ensures Predict(p) == OlaparibIf(p) + [Cisplatin, Nivolumab, Doxorubicin]
  {
    UnknownTypeBase(p.cancerType);
    OtherTypesKeepBase(p);
    DefaultOrder(OlaparibIf(p));
  }

  /** The list the table gives each cancer type, and the default list for any other. */
  lemma BaseCases(t: string)
    ensures var b := BaseTreatments(t);
      (t == "breast-cancer" && b == [Tamoxifen, Trastuzumab, Palbociclib]) ||
      (t == "lung-cancer" && b == [Osimertinib, PembrolizumabLung, Crizotinib]) ||
      (t == "colorectal-cancer" && b == [Folfox, Cetuximab, Bevacizumab]) ||
      (t == "prostate-cancer" && b == [Enzalutamide, Abiraterone, Docetaxel]) ||
      (t == "melanoma" && b == [PembrolizumabMelanoma, DabrafenibTrametinib, Ipilimumab]) ||
      (t !in KnownCancerTypes && b == DefaultTreatments)
  {
    TableKeys();
  }

  /** No two records share an efficacy. */
  predicate DistinctEfficacies(s: seq<Treatment>)
  {
    forall i, j :: 0 <= i < j < |s| ==> s[i].efficacyScore != s[j].efficacyScore
  }

  /** Distinct efficacies between 65 and 95, and the PARP inhibitor present exactly when
      `extra` appended it. */
  predicate WellFormed(s: seq<Treatment>, extra: seq<Treatment>)
  {
    DistinctEfficacies(s) && (forall t :: t in s ==> 65 <= t.efficacyScore <= 95) &&
    (Olaparib in s <==> extra == [Olaparib])
  }

  /** Three records of distinct efficacies between 65 and 95, none of them 86, followed by
      the PARP inhibitor or by nothing: the efficacies stay distinct and in range, and the
      PARP inhibitor is there exactly when it was appended. */
  lemma ThreeRecords(a: Treatment, b: Treatment, c: Treatment, extra: seq<Treatment>)
    requires extra == [] || extra == [Olaparib]
    requires a.efficacyScore != b.efficacyScore && a.efficacyScore != c.efficacyScore &&
             b.efficacyScore != c.efficacyScore
    requires forall t :: t in [a, b, c] ==> 65 <= t.efficacyScore <= 95 && t.efficacyScore != 86
    ensures WellFormed([a, b, c] + extra, extra)
  {
    assert Olaparib.efficacyScore == 86;
    var s := [a, b, c] + extra;
    assert forall i :: 0 <= i < 3 ==> s[i] in [a, b, c];
  }

  // One well-formedness fact per list of the table, each naming only its own records.

  lemma BreastListWellFormed(extra: seq<Treatment>)
    requires extra == [] || extra == [Olaparib]
    ensures WellFormed([Tamoxifen, Trastuzumab, Palbociclib] + extra, extra)
  {
    ThreeRecords(Tamoxifen, Trastuzumab, Palbociclib, extra);
  }

  lemma LungListWellFormed(extra: seq<Treatment>)
    requires extra == [] || extra == [Olaparib]
    ensures WellFormed([Osimertinib, PembrolizumabLung, Crizotinib] + extra, extra)
  {
    ThreeRecords(Osimertinib, PembrolizumabLung, Crizotinib, extra);
  }

  lemma ColorectalListWellFormed(extra: seq<Treatment>)
    requires extra == [] || extra == [Olaparib]
    ensures WellFormed([Folfox, Cetuximab, Bevacizumab] + extra, extra)
  {
    ThreeRecords(Folfox, Cetuximab, Bevacizumab, extra);
  }

  lemma ProstateListWellFormed(extra: seq<Treatment>)
    requires extra == [] || extra == [Olaparib]
    ensures WellFormed([Enzalutamide, Abiraterone, Docetaxel] + extra, extra)
  {
    ThreeRecords(Enzalutamide, Abiraterone, Docetaxel, extra);
  }

  lemma MelanomaListWellFormed(extra: seq<Treatment>)
    requires extra == [] || extra == [Olaparib]
    ensures WellFormed([PembrolizumabMelanoma, DabrafenibTrametinib, Ipilimumab] + extra, extra)
  {
    ThreeRecords(PembrolizumabMelanoma, DabrafenibTrametinib, Ipilimumab, extra);
  }

  lemma DefaultListWellFormed(extra: seq<Treatment>)
    requires extra == [] || extra == [Olaparib]
    ensures WellFormed(DefaultTreatments + extra, extra)
  {
    ThreeRecords(Cisplatin, Doxorubicin, Nivolumab, extra);
  }

  /** Every list the table can give, with or without the PARP inhibitor appended, has
      distinct efficacies between 65 and 95, and holds the PARP inhibitor only when it was
      appended. */
  lemma BaseWellFormed(t: string, extra: seq<Treatment>)
    requires extra == [] || extra == [Olaparib]
    ensures WellFormed(BaseTreatments(t) + extra, extra)
  {
    BaseCases(t);
    if t == "breast-cancer" {
      BreastListWellFormed(extra);
    } else if t == "lung-cancer" {
      LungListWellFormed(extra);
    } else if t == "colorectal-cancer" {
      ColorectalListWellFormed(extra);
    } else if t == "prostate-cancer" {
      ProstateListWellFormed(extra);
    } else if t == "melanoma" {
      MelanomaListWellFormed(extra);
    } else {
      DefaultListWellFormed(extra);
    }
  }

  /** The lung-cancer records stay well formed whatever the mutations. */
  lemma LungWellFormed(p: PatientData)
    ensures WellFormed(LungList(p), OlaparibIf(p))
  {
    ThreeRecords(Osimertinib.(efficacyScore := if Carries(p, "EGFR") then 95 else 85),
                 PembrolizumabLung,
                 Crizotinib.(efficacyScore := if Carries(p, "ALK") then 94 else 82), OlaparibIf(p));
  }

  /** The breast-cancer records stay well formed whatever the mutations. */
  lemma BreastWellFormed(p: PatientData)
    ensures WellFormed(BreastList(p), OlaparibIf(p))
  {
    ThreeRecords(Tamoxifen, Trastuzumab.(efficacyScore := if Carries(p, "HER2/neu") then 94 else 79),
                 Palbociclib, OlaparibIf(p));
  }

  /** The adjusted list of any patient has distinct efficacies between 65 and 95 (so the
      stability of the sort never decides an order), and it holds the PARP inhibitor exactly
      when BRCA1 or BRCA2 is selected. */
  lemma AdjustedWellFormed(p: PatientData)
    ensures DistinctEfficacies(Adjusted(p))
    ensures forall t :: t in Adjusted(p) ==> 65 <= t.efficacyScore <= 95
    ensures Olaparib in Adjusted(p) <==> CarriesBrca(p)
  {
    if p.cancerType == "lung-cancer" {
      LungAdjusted(p);
      LungWellFormed(p);
    } else if p.cancerType == "breast-cancer" {
      BreastAdjusted(p);
      BreastWellFormed(p);
    } else {
      OtherTypesKeepBase(p);
      BaseWellFormed(p.cancerType, OlaparibIf(p));
    }
  }

  /** The PARP inhibitor is recommended exactly when BRCA1 or BRCA2 is selected, with the
      fixed scores 86 and 80, whatever the cancer type. */
  lemma OlaparibIffBrca(p: PatientData)
    ensures Olaparib in Predict(p) <==> CarriesBrca(p)
    ensures Olaparib.efficacyScore == 86 && Olaparib.confidenceScore == 80
  {
    var s := Adjusted(p);
    SortDescPermutes(s);
    AdjustedWellFormed(p);
    assert Olaparib in SortDesc(s) <==> Olaparib in multiset(s);
  }

  /** Every recommended efficacy lies between 0.65 and 0.95: the unclamped additions never
      take a score above 1. */
  lemma EfficacyBounds(p: PatientData)
    ensures forall t :: t in Predict(p) ==> 65 <= t.efficacyScore <= 95
  {
    var s := Adjusted(p);
    SortDescPermutes(s);
    AdjustedWellFormed(p);
    forall t | t in SortDesc(s) ensures 65 <= t.efficacyScore <= 95 {
      assert t in multiset(s);
    }
  }
}
