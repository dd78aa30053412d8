/**
 * The state updates of src/components/DataInputForm.tsx: setting one text field, toggling
 * a mutation, setting an expression level, the required-field check on submit, and the
 * value each cancer-type label is stored under (its slug).
 *
 * Each React state update `setFormData(prev => …)` is a function from the old form state
 * to the new one.
 */
module DataInputForm {
  import opened JsString
  import opened GnnData
  import ResultsPage
  import GnnModel

  // ---------------------------------------------------------------------------
  // Text fields
  // ---------------------------------------------------------------------------

  /** The text fields `handleInputChange` is called with. */
  datatype Field =
    | PatientId | Age | Gender | CancerType | CancerStage
    | OtherMutations | PreviousTreatments | TreatmentResponse

  function Get(f: PatientData, field: Field): string
  {
    match field
    case PatientId => f.patientId
    case Age => f.age
    case Gender => f.gender
    case CancerType => f.cancerType
    case CancerStage => f.cancerStage
    case OtherMutations => f.otherMutations
    case PreviousTreatments => f.previousTreatments
    case TreatmentResponse => f.treatmentResponse
  }

  /** `handleInputChange(field, value)`: `{...formData, [field]: value}`. */
  function HandleInputChange(f: PatientData, field: Field, value: string): (r: PatientData)
    ensures Get(r, field) == value
    ensures forall g :: g != field ==> Get(r, g) == Get(f, g)
    ensures r.selectedMutations == f.selectedMutations
    ensures r.selectedExpressions == f.selectedExpressions
  {
    match field
    case PatientId => f.(patientId := value)
    case Age => f.(age := value)
    case Gender => f.(gender := value)
    case CancerType => f.(cancerType := value)
    case CancerStage => f.(cancerStage := value)
    case OtherMutations => f.(otherMutations := value)
    case PreviousTreatments => f.(previousTreatments := value)
    case TreatmentResponse => f.(treatmentResponse := value)
  }

  /** Setting a field to the value it already has changes nothing. */
  lemma HandleInputChangeUnchanged(f: PatientData, field: Field)
    ensures HandleInputChange(f, field, Get(f, field)) == f
  {
  }

  // ---------------------------------------------------------------------------
  // Mutations
  // ---------------------------------------------------------------------------

  /** `mutations.filter(m => m !== mutation)` */
  function Remove(ms: seq<string>, m: string): (r: seq<string>)
    ensures forall x :: x in r <==> x in ms && x != m
  {
    if ms == [] then []
    else (if ms[0] == m then [] else [ms[0]]) + Remove(ms[1..], m)
  }

  /** Removing from a concatenation removes from each part, so the others keep their order. */
  lemma {:induction false} RemoveAppend(a: seq<string>, b: seq<string>, m: string)
    ensures Remove(a + b, m) == Remove(a, m) + Remove(b, m)
  {
    if a != [] {
      assert (a + b)[1..] == a[1..] + b;
      RemoveAppend(a[1..], b, m);
    } else {
      assert a + b == b;
    }
  }

  /** Removing drops every copy of `m` and keeps every other entry as often as before. */
  lemma {:induction false} RemoveCounts(ms: seq<string>, m: string)
    ensures multiset(Remove(ms, m)) == multiset(ms)[m := 0]
  {
    if ms != [] {
      RemoveCounts(ms[1..], m);
      assert ms == [ms[0]] + ms[1..];
    }
  }

  /** Removing an absent mutation changes nothing. */
  lemma {:induction false} RemoveAbsent(ms: seq<string>, m: string)
    requires m !in ms
    ensures Remove(ms, m) == ms
  {
    if ms != [] {
      RemoveAbsent(ms[1..], m);
    }
  }

  /** `toggleMutation(mutation)`: removes every copy of a selected mutation, appends an
      unselected one. */
  function ToggleMutation(f: PatientData, m: string): (r: PatientData)
    ensures m in r.selectedMutations <==> m !in f.selectedMutations
    ensures forall x :: x != m ==> (x in r.selectedMutations <==> x in f.selectedMutations)
    ensures m !in f.selectedMutations ==> r.selectedMutations == f.selectedMutations + [m]
    ensures r == f.(selectedMutations := r.selectedMutations)
  {
    var mutations := f.selectedMutations;
    if m in mutations then f.(selectedMutations := Remove(mutations, m))
    else f.(selectedMutations := mutations + [m])
  }

  /** Toggling a selected mutation drops it and leaves the other selections in the order
      they were. */
  lemma ToggleSelected(f: PatientData, m: string, a: seq<string>, b: seq<string>)
    requires f.selectedMutations == a + [m] + b
    ensures ToggleMutation(f, m).selectedMutations == Remove(a, m) + Remove(b, m)
  {
    var ms := f.selectedMutations;
    assert m in ms by {
      assert ms[|a|] == m;
    }
    calc {
      ToggleMutation(f, m).selectedMutations;
      Remove(a + [m] + b, m);
      { RemoveAppend(a + [m], b, m); }
      Remove(a + [m], m) + Remove(b, m);
      { RemoveAppend(a, [m], m); RemoveSelf(m); }
      Remove(a, m) + [] + Remove(b, m);
    }
    assert Remove(a, m) + [] == Remove(a, m);
  }

  /** Removing `m` from the list holding only `m` leaves nothing. */
  lemma RemoveSelf(m: string)
    ensures Remove([m], m) == []
  {
    assert [m][1..] == [];
  }

  /** Toggling a selected mutation removes every copy of it and keeps every other
      selection as often as before. */
  lemma ToggleSelectedCounts(f: PatientData, m: string)
    requires m in f.selectedMutations
    ensures multiset(ToggleMutation(f, m).selectedMutations) == multiset(f.selectedMutations)[m := 0]
  {
    RemoveCounts(f.selectedMutations, m);
  }

  /** Toggling an unselected mutation twice restores the form. */
  lemma ToggleTwice(f: PatientData, m: string)
    requires m !in f.selectedMutations
    ensures ToggleMutation(ToggleMutation(f, m), m) == f
  {
    var ms := f.selectedMutations;
    RemoveAppend(ms, [m], m);
    RemoveAbsent(ms, m);
  }

  // ---------------------------------------------------------------------------
  // Expression levels
  // ---------------------------------------------------------------------------

  /** `setExpressionLevel(gene, level)`: `{...prev.selectedExpressions, [gene]: level}`. */
  function SetExpressionLevel(f: PatientData, gene: string, level: string): (r: PatientData)
    ensures gene in r.selectedExpressions && r.selectedExpressions[gene] == level
    ensures forall g :: g != gene ==>
              (g in r.selectedExpressions <==> g in f.selectedExpressions) &&
              (g in f.selectedExpressions ==> r.selectedExpressions[g] == f.selectedExpressions[g])
    ensures r == f.(selectedExpressions := r.selectedExpressions)
  {
    f.(selectedExpressions := f.selectedExpressions[gene := level])
  }

  /** Setting the same gene twice keeps only the second level. */
  lemma SetExpressionLevelTwice(f: PatientData, gene: string, l1: string, l2: string)
    ensures SetExpressionLevel(SetExpressionLevel(f, gene, l1), gene, l2) == SetExpressionLevel(f, gene, l2)
  {
    var a := SetExpressionLevel(SetExpressionLevel(f, gene, l1), gene, l2).selectedExpressions;
    var b := SetExpressionLevel(f, gene, l2).selectedExpressions;
    assert a == b;
  }

  // ---------------------------------------------------------------------------
  // Submit
  // ---------------------------------------------------------------------------

  datatype SubmitOutcome =
    | Rejected          // the error toast; nothing is stored
    | Stored(data: PatientData)

  /** `handleSubmit`: the form is stored for the results page unless the patient ID or the
      cancer type is empty. */
  function HandleSubmit(f: PatientData): (r: SubmitOutcome)
    ensures r.Rejected? <==> f.patientId == [] || f.cancerType == []
    ensures r.Stored? ==> r.data == f
  {
    if f.patientId == [] || f.cancerType == [] then Rejected else Stored(f)
  }

  // ---------------------------------------------------------------------------
  // Stage options
  // ---------------------------------------------------------------------------

  /** The stage options of the form: the value stored and the text shown. */
  const StageOptions := [
    ("stage-i", "Stage I"), ("stage-ii", "Stage II"),
    ("stage-iii", "Stage III"), ("stage-iv", "Stage IV")]

  /** The results page shows every stage the form offers as the option's own text in
      capitals. */
  lemma StageOptionsShown()
    ensures forall k :: 0 <= k < |StageOptions| ==>
              ResultsPage.StageDisplay(StageOptions[k].0) == ToUpperCase(StageOptions[k].1)
  {
    forall k | 0 <= k < |StageOptions|
      ensures ResultsPage.StageDisplay(StageOptions[k].0) == ToUpperCase(StageOptions[k].1)
    {
      var (stage, text) := StageOptions[k];
      ResultsPage.StageShownAs(stage, text);
    }
  }

  // ---------------------------------------------------------------------------
  // Cancer-type labels and their slugs
  // ---------------------------------------------------------------------------

  const CancerTypeLabels := [
    "Breast Cancer", "Lung Cancer", "Colorectal Cancer", "Prostate Cancer",
    "Melanoma", "Leukemia", "Lymphoma", "Ovarian Cancer"]

  /** The value stored for each label, in the same order. */
  const CancerTypeKeys := [
    "breast-cancer", "lung-cancer", "colorectal-cancer", "prostate-cancer",
    "melanoma", "leukemia", "lymphoma", "ovarian-cancer"]

  /** `s.replace(/\s+/g, '-')`: each maximal run of white space becomes one '-'.
      `inRun` says whether the character before `s` was white space. */
  function CollapseRuns(s: string, inRun: bool): (r: string)
    ensures |r| <= |s|
    ensures forall i :: 0 <= i < |r| ==> !IsWhitespace(r[i])
    ensures forall i :: 0 <= i < |r| ==> r[i] == '-' || r[i] in s
  {
    if s == [] then []
    else if IsWhitespace(s[0]) then (if inRun then [] else ['-']) + CollapseRuns(s[1..], true)
    else [s[0]] + CollapseRuns(s[1..], false)
  }

  /** `type.toLowerCase().replace(/\s+/g, '-')`, the value stored for a cancer-type label. */
  function Slug(lbl: string): (r: string)
    ensures |r| <= |lbl|
    ensures forall i :: 0 <= i < |r| ==> !IsWhitespace(r[i])
  {
    CollapseRuns(ToLowerCase(lbl), false)
  }

  /** A slug has no white space and no upper-case letter. */
  lemma SlugShape(lbl: string)
    ensures |Slug(lbl)| <= |lbl|
    ensures forall i :: 0 <= i < |Slug(lbl)| ==> !IsWhitespace(Slug(lbl)[i]) && !IsUpper(Slug(lbl)[i])
  {
    var l := ToLowerCase(lbl);
    forall i | 0 <= i < |Slug(lbl)|
      ensures !IsUpper(Slug(lbl)[i])
    {
      var c := Slug(lbl)[i];
      if c != '-' {
        var k :| 0 <= k < |l| && l[k] == c;
      }
    }
  }

  /** No two white-space characters in a row. */
  predicate SingleSpaced(s: string)
  {
    forall i :: 0 <= i < |s| - 1 ==> !(IsWhitespace(s[i]) && IsWhitespace(s[i + 1]))
  }

  lemma {:induction false} CollapseRunsChars(s: string, inRun: bool)
    requires SingleSpaced(s)
    requires inRun ==> s == [] || !IsWhitespace(s[0])
    ensures |CollapseRuns(s, inRun)| == |s|
    ensures forall i :: 0 <= i < |s| ==> CollapseRuns(s, inRun)[i] == if IsWhitespace(s[i]) then '-' else s[i]
  {
    if s != [] {
      assert SingleSpaced(s[1..]) by {
        forall i | 0 <= i < |s[1..]| - 1
          ensures !(IsWhitespace(s[1..][i]) && IsWhitespace(s[1..][i + 1]))
        {
          assert s[1..][i] == s[i + 1] && s[1..][i + 1] == s[i + 2];
        }
      }
      CollapseRunsChars(s[1..], IsWhitespace(s[0]));
      var r := CollapseRuns(s, inRun);
      var r' := CollapseRuns(s[1..], IsWhitespace(s[0]));
      assert r == [if IsWhitespace(s[0]) then '-' else s[0]] + r';
      forall i | 1 <= i < |s|
        ensures r[i] == if IsWhitespace(s[i]) then '-' else s[i]
      {
        assert r[i] == r'[i - 1];
        assert s[1..][i - 1] == s[i];
      }
    }
  }

  /** The slug of a single-spaced lbl, character by character: each white-space
      character becomes '-' and each letter is lower-cased. */
  lemma SlugChars(lbl: string)
    requires SingleSpaced(lbl)
    ensures |Slug(lbl)| == |lbl|
    ensures forall i :: 0 <= i < |lbl| ==>
              Slug(lbl)[i] == if IsWhitespace(lbl[i]) then '-' else LowerChar(lbl[i])
  {
    var l := ToLowerCase(lbl);
    assert forall i :: 0 <= i < |l| ==> (IsWhitespace(l[i]) <==> IsWhitespace(lbl[i]));
    CollapseRunsChars(l, false);
  }

  /** A label written in title case: single spaces between words, no '-', each word
      starting with a character that is not a lower-case letter and continuing with
      characters that are not upper-case letters. */
  predicate TitleCase(lbl: string)
  {
    SingleSpaced(lbl) && forall i :: 0 <= i < |lbl| ==> TitleAt(lbl, i)
  }

  /** Position `i` of a title-case label: not a '-', white space only as a plain space, no
      lower-case letter at the start of a word and no upper-case letter inside one. */
  predicate TitleAt(lbl: string, i: nat)
    requires i < |lbl|
  {
    lbl[i] != '-' &&
    (IsWhitespace(lbl[i]) ==> lbl[i] == ' ') &&
    (if i == 0 || lbl[i - 1] == ' ' then !IsLower(lbl[i]) else !IsUpper(lbl[i]))
  }

  /** Position `i` of a title-case label survives the slug and the display name: a space
      comes back from its '-', a letter from its lower-case form. */
  lemma SlugCharShown(lbl: string, s: string, i: nat)
    requires TitleCase(lbl) && |s| == |lbl| && i < |lbl|
    requires forall j :: 0 <= j < |lbl| ==>
               s[j] == if IsWhitespace(lbl[j]) then '-' else LowerChar(lbl[j])
    ensures ResultsPage.DisplayChar(s, i) == lbl[i]
  {
    assert TitleAt(lbl, i);
    var c := lbl[i];
    if IsWhitespace(c) {
      assert c == ' ' && s[i] == '-';
    } else {
      assert s[i] == LowerChar(c) && s[i] != '-';
      var start := i == 0 || lbl[i - 1] == ' ';
      if i > 0 {
        assert TitleAt(lbl, i - 1);
        assert s[i - 1] == '-' <==> lbl[i - 1] == ' ';
      }
      if start {
        assert !IsLower(c);
        if IsUpper(c) {
          assert UpperChar(LowerChar(c)) == c;
        }
      } else {
        assert !IsUpper(c);
      }
    }
  }

  /** The results page shows a title-case label again from its slug. */
  lemma DisplayNameOfSlug(lbl: string)
    requires lbl != [] && TitleCase(lbl)
    ensures ResultsPage.CancerDisplayName(Slug(lbl)) == lbl
  {
    var s := Slug(lbl);
    SlugChars(lbl);
    ResultsPage.DisplayNameChars(s);
    var r := ResultsPage.CancerDisplayName(s);
    forall i | 0 <= i < |lbl|
      ensures r[i] == lbl[i]
    {
      SlugCharShown(lbl, s, i);
    }
  }

  // ---------------------------------------------------------------------------
  // The labels the form offers
  // ---------------------------------------------------------------------------

  /** A capitalized ASCII word: an upper-case letter followed by lower-case letters. */
  predicate Word(w: string)
  {
    |w| > 0 && IsUpper(w[0]) && forall i :: 1 <= i < |w| ==> IsLower(w[i])
  }

  /** A capitalized word lower-cases to its lower-cased first letter and its unchanged tail. */
  lemma WordLower(w: string)
    requires Word(w)
    ensures ToLowerCase(w) == [LowerChar(w[0])] + w[1..]
  {
    var l, r := ToLowerCase(w), [LowerChar(w[0])] + w[1..];
    forall i | 1 <= i < |w|
      ensures l[i] == r[i]
    {
      assert r[i] == w[i];
    }
  }

  /** A string without white space passes the run collapsing unchanged. */
  lemma {:induction false} CollapseNoSpace(s: string, inRun: bool)
    requires forall i :: 0 <= i < |s| ==> !IsWhitespace(s[i])
    ensures CollapseRuns(s, inRun) == s
  {
    if s != [] {
      CollapseNoSpace(s[1..], false);
    }
  }

  /** A maximal run of white space: a non-empty `w` of white space yields one '-' when it
      starts a run and nothing when it continues one, and what follows is collapsed as
      coming after a run. */
  lemma {:induction false} CollapseWhiteRun(w: string, y: string, inRun: bool)
    requires w != []
    requires forall i :: 0 <= i < |w| ==> IsWhitespace(w[i])
    ensures CollapseRuns(w + y, inRun) == (if inRun then "" else "-") + CollapseRuns(y, true)
  {
    assert (w + y)[0] == w[0];
    assert (w + y)[1..] == w[1..] + y;
    if |w| > 1 {
      CollapseWhiteRun(w[1..], y, true);
    }
  }

  /** A run without white space passes through unchanged, and what follows is collapsed as
      coming after a non-space character. */
  lemma {:induction false} CollapseWordRun(x: string, y: string, inRun: bool)
    requires x != []
    requires forall i :: 0 <= i < |x| ==> !IsWhitespace(x[i])
    ensures CollapseRuns(x + y, inRun) == x + CollapseRuns(y, false)
  {
    assert (x + y)[0] == x[0];
    assert (x + y)[1..] == x[1..] + y;
    if |x| > 1 {
      CollapseWordRun(x[1..], y, false);
    }
  }

  /** A lower-cased capitalized word has no white space. */
  lemma LowerWordNoSpace(w: string)
    requires Word(w)
    ensures forall i :: 0 <= i < |ToLowerCase(w)| ==> !IsWhitespace(ToLowerCase(w)[i])
  {
  }

  /** The slug of a one-word label is the word lower-cased. */
  lemma WordSlug(w: string)
    requires Word(w)
    ensures Slug(w) == ToLowerCase(w)
  {
    LowerWordNoSpace(w);
    CollapseNoSpace(ToLowerCase(w), false);
  }

  /** The slug of a two-word label is the two words lower-cased, joined by '-'. */
  lemma TwoWordSlug(a: string, b: string)
    requires Word(a) && Word(b)
    ensures Slug(a + " " + b) == ToLowerCase(a) + "-" + ToLowerCase(b)
  {
    var la, lb := ToLowerCase(a), ToLowerCase(b);
    LowerAroundSpace(a, b);
    LowerWordNoSpace(a);
    LowerWordNoSpace(b);
    CollapseSplit(la, lb, false);
    CollapseNoSpace(lb, true);
  }

  /** Lower-casing leaves a space between two words in place. */
  lemma LowerAroundSpace(a: string, b: string)
    ensures ToLowerCase(a + " " + b) == ToLowerCase(a) + " " + ToLowerCase(b)
  {
    var s := a + " " + b;
    var la, lb := ToLowerCase(a), ToLowerCase(b);
    var l, r := ToLowerCase(s), la + " " + lb;
    assert |l| == |r|;
    forall i | 0 <= i < |l|
      ensures l[i] == r[i]
    {
      assert l[i] == LowerChar(s[i]);
      if i < |a| {
        assert s[i] == a[i] && r[i] == la[i];
      } else if i == |a| {
        assert s[i] == ' ' && r[i] == ' ';
      } else {
        assert s[i] == b[i - |a| - 1] && r[i] == lb[i - |a| - 1];
      }
    }
  }

  /** Collapsing a white-space-free `x`, one space and `y`: `x`, a '-', and `y` collapsed
      after a run. */
  lemma {:induction false} CollapseSplit(x: string, y: string, inRun: bool)
    requires x != []
    requires forall i :: 0 <= i < |x| ==> !IsWhitespace(x[i])
    ensures CollapseRuns(x + " " + y, inRun) == x + "-" + CollapseRuns(y, true)
  {
    var s := x + " " + y;
    assert s[1..] == x[1..] + " " + y;
    if |x| == 1 {
      assert s[1..] == [' '] + y;
      assert ([' '] + y)[1..] == y;
    } else {
      CollapseSplit(x[1..], y, false);
    }
  }

  /** A two-word label of capitalized words is in title case. */
  lemma TwoWordTitleCase(a: string, b: string)
    requires Word(a) && Word(b)
    ensures TitleCase(a + " " + b)
  {
    var s := a + " " + b;
    forall i | 0 <= i < |s|
      ensures TitleAt(s, i)
    {
      if i < |a| {
        assert s[i] == a[i];
        if i > 0 {
          assert s[i - 1] == a[i - 1];
        }
      } else if i == |a| {
        assert s[i] == ' ' && s[i - 1] == a[i - 1];
      } else {
        assert s[i] == b[i - |a| - 1];
        if i > |a| + 1 {
          assert s[i - 1] == b[i - |a| - 2];
        } else {
          assert s[i - 1] == ' ';
        }
      }
    }
    forall i | 0 <= i < |s| - 1
      ensures !(IsWhitespace(s[i]) && IsWhitespace(s[i + 1]))
    {
      if i < |a| {
        assert s[i] == a[i];
      } else {
        assert s[i + 1] == b[i - |a|];
      }
    }
    assert SingleSpaced(s);
  }

  /** A one-word label of a capitalized word is in title case. */
  lemma WordTitleCase(w: string)
    requires Word(w)
    ensures TitleCase(w)
  {
    forall i | 0 <= i < |w|
      ensures TitleAt(w, i)
    {
      if i > 0 {
        assert w[i - 1] != ' ';
      }
    }
  }

  /** A two-word label of capitalized words shows again as itself from its slug. */
  lemma TwoWordRoundTrip(l: string, a: string, b: string)
    requires Word(a) && Word(b) && l == a + " " + b
    ensures ResultsPage.CancerDisplayName(Slug(l)) == l
  {
    TwoWordTitleCase(a, b);
    DisplayNameOfSlug(l);
  }

  /** A one-word label of a capitalized word shows again as itself from its slug. */
  lemma WordRoundTrip(w: string)
    requires Word(w)
    ensures ResultsPage.CancerDisplayName(Slug(w)) == w
  {
    WordTitleCase(w);
    DisplayNameOfSlug(w);
  }

  /** The words of the labels the form offers are capitalized. */
  lemma LabelWords()
    ensures Word("Breast") && Word("Lung") && Word("Colorectal") && Word("Prostate")
    ensures Word("Melanoma") && Word("Leukemia") && Word("Lymphoma")
    ensures Word("Ovarian") && Word("Cancer")
  {
  }

  /** Every label the form offers shows again as itself on the results page. */
  lemma LabelsRoundTrip()
    ensures forall l :: l in CancerTypeLabels ==> ResultsPage.CancerDisplayName(Slug(l)) == l
  {
    LabelWords();
    forall l | l in CancerTypeLabels
      ensures ResultsPage.CancerDisplayName(Slug(l)) == l
    {
      if l == "Breast Cancer" {
        TwoWordRoundTrip(l, "Breast", "Cancer");
      } else if l == "Lung Cancer" {
        TwoWordRoundTrip(l, "Lung", "Cancer");
      } else if l == "Colorectal Cancer" {
        TwoWordRoundTrip(l, "Colorectal", "Cancer");
      } else if l == "Prostate Cancer" {
        TwoWordRoundTrip(l, "Prostate", "Cancer");
      } else if l == "Melanoma" || l == "Leukemia" || l == "Lymphoma" {
        WordRoundTrip(l);
      } else {
        TwoWordRoundTrip(l, "Ovarian", "Cancer");
      }
    }
  }

  /** The slug of a two-word label written out. */
  lemma TwoWordSlugOf(a: string, b: string, slug: string)
    requires Word(a) && Word(b)
    requires slug == [LowerChar(a[0])] + a[1..] + "-" + [LowerChar(b[0])] + b[1..]
    ensures Slug(a + " " + b) == slug
  {
    TwoWordSlug(a, b);
    WordLower(a);
    WordLower(b);
  }

  /** The slug of a one-word label written out. */
  lemma WordSlugOf(w: string, slug: string)
    requires Word(w)
    requires slug == [LowerChar(w[0])] + w[1..]
    ensures Slug(w) == slug
  {
    WordSlug(w);
    WordLower(w);
  }

  /** The value each label the form offers is stored under. */
  lemma LabelSlug(k: nat)
    requires k < |CancerTypeLabels|
    ensures Slug(CancerTypeLabels[k]) == CancerTypeKeys[k]
  {
    var l := CancerTypeLabels[k];
    if k == 0 { SlugBreastCancer(l); }
    else if k == 1 { SlugLungCancer(l); }
    else if k == 2 { SlugColorectalCancer(l); }
    else if k == 3 { SlugProstateCancer(l); }
    else if k == 4 { SlugMelanoma(l); }
    else if k == 5 { SlugLeukemia(l); }
    else if k == 6 { SlugLymphoma(l); }
    else { SlugOvarianCancer(l); }
  }

  // The per-label steps below take the label as a parameter fixed by `requires l == ...`
  // rather than as a literal argument: the verifier then unfolds `Slug` on one label per
  // proof, which keeps each proof small.

  lemma SlugBreastCancer(l: string)
    requires l == "Breast Cancer"
    ensures Slug(l) == "breast-cancer"
  {
    assert Word("Breast") && Word("Cancer") && l == "Breast" + " " + "Cancer";
    TwoWordSlugOf("Breast", "Cancer", "breast-cancer");
  }

  lemma SlugLungCancer(l: string)
    requires l == "Lung Cancer"
    ensures Slug(l) == "lung-cancer"
  {
    assert Word("Lung") && Word("Cancer") && l == "Lung" + " " + "Cancer";
    TwoWordSlugOf("Lung", "Cancer", "lung-cancer");
  }

  lemma SlugColorectalCancer(l: string)
    requires l == "Colorectal Cancer"
    ensures Slug(l) == "colorectal-cancer"
  {
    assert Word("Colorectal") && Word("Cancer") && l == "Colorectal" + " " + "Cancer";
    TwoWordSlugOf("Colorectal", "Cancer", "colorectal-cancer");
  }

  lemma SlugProstateCancer(l: string)
    requires l == "Prostate Cancer"
    ensures Slug(l) == "prostate-cancer"
  {
    assert Word("Prostate") && Word("Cancer") && l == "Prostate" + " " + "Cancer";
    TwoWordSlugOf("Prostate", "Cancer", "prostate-cancer");
  }

  lemma SlugMelanoma(l: string)
    requires l == "Melanoma"
    ensures Slug(l) == "melanoma"
  {
    assert Word(l);
    WordSlugOf(l, "melanoma");
  }

  lemma SlugLeukemia(l: string)
    requires l == "Leukemia"
    ensures Slug(l) == "leukemia"
  {
    assert Word(l);
    WordSlugOf(l, "leukemia");
  }

  lemma SlugLymphoma(l: string)
    requires l == "Lymphoma"
    ensures Slug(l) == "lymphoma"
  {
    assert Word(l);
    WordSlugOf(l, "lymphoma");
  }

  lemma SlugOvarianCancer(l: string)
    requires l == "Ovarian Cancer"
    ensures Slug(l) == "ovarian-cancer"
  {
    assert Word("Ovarian") && Word("Cancer") && l == "Ovarian" + " " + "Cancer";
    TwoWordSlugOf("Ovarian", "Cancer", "ovarian-cancer");
  }

  /** The first five labels the form offers are stored under cancer types the treatment
      table knows. */
  lemma TableLabels()
    ensures forall l :: l in CancerTypeLabels[..5] ==> Slug(l) in GnnModel.KnownCancerTypes
  {
    forall l | l in CancerTypeLabels[..5]
      ensures Slug(l) in GnnModel.KnownCancerTypes
    {
      var k :| 0 <= k < 5 && CancerTypeLabels[k] == l;
      LabelSlug(k);
    }
  }

  /** The slugs of the last three labels are none of the known cancer types. */
  lemma UnknownSlugs()
    ensures "leukemia" !in GnnModel.KnownCancerTypes
    ensures "lymphoma" !in GnnModel.KnownCancerTypes
    ensures "ovarian-cancer" !in GnnModel.KnownCancerTypes
  {
  }

  /** The last three labels are stored under cancer types the treatment table does not know,
      so they receive the default treatments. */
  lemma DefaultLabels()
    ensures forall l :: l in CancerTypeLabels[5..] ==> Slug(l) !in GnnModel.KnownCancerTypes
  {
    UnknownSlugs();
    assert CancerTypeLabels[5..] == [CancerTypeLabels[5], CancerTypeLabels[6], CancerTypeLabels[7]];
    forall l | l in CancerTypeLabels[5..]
      ensures Slug(l) !in GnnModel.KnownCancerTypes
    {
      if l == CancerTypeLabels[5] {
        LabelSlug(5);
      } else if l == CancerTypeLabels[6] {
        LabelSlug(6);
      } else {
        assert l == CancerTypeLabels[7];
        LabelSlug(7);
        assert Slug(l) == "ovarian-cancer";
      }
    }
  }
}
