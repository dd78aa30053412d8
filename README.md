# Cancer GNN treatment finder: the recommendation rules in Dafny

This project models the decision logic of a web application that recommends cancer
treatments from a patient's data. The application has three parts:

- A form collects the patient data: cancer type, stage, selected mutations and expression
  levels.
- `predictTreatments` ranks treatment records. It looks up a fixed list for the cancer type,
  adjusts efficacies with four mutation rules, and sorts by efficacy, highest first.
- `generateInsights` picks explanatory sentences from a ladder of conditions. When fewer
  than two fire, it pads the list with two general sentences.

The results page turns the stored cancer type back into a display name and upper-cases the
stage. It shows the top three treatments as ranked cards.

The Dafny modules follow the source files:

| module | file | models |
|---|---|---|
| `GnnData` | `gnn_data.dfy` | the `PatientData` and `Treatment` records |
| `GnnModel` | `gnn_model.dfy` | the treatment table, the four rules and `predictTreatments` |
| `EfficacySort` | `efficacy_sort.dfy` | `recommendedTreatments.sort((a, b) => b.efficacyScore - a.efficacyScore)` as an in-place stable insertion sort on an array, and its specification |
| `Insights` | `insights.dfy` | `generateInsights` |
| `ResultsPage` | `results_page.dfy` | the display name, the stage text and the top-three cards |
| `DataInputForm` | `data_input_form.dfy` | the form's state updates, the submit check, the cancer-type labels and their slugs, the stage options |
| `JsString` | `js_string.dfy` | the JavaScript string operations used: `toUpperCase`, `toLowerCase`, `split`, `join`, `replace`, and the `\s` class |

Scores are integer hundredths, so an efficacy of 0.85 is written 85. Every score and every
adjustment in the source has two decimals. The source adds them as IEEE-754 doubles, so the
model is exact up to the rounding of those additions (see "## Left out").

`predictTreatments` has two layers:

- `GnnModel.PredictTreatments` is the imperative procedure. It reassigns a local list once
  per rule and pushes the PARP record. It then copies the list into an array and sorts it in
  place with `EfficacySort.SortByEfficacy`.
- The specification is `Predict(p) == SortDesc(Adjusted(p))`.
  - `SortDesc` is the stable descending order. JavaScript's `Array.prototype.sort` is stable,
    so comparator `b - a` yields exactly this order.

`generateInsights` also has two layers:

- `Insights.GenerateInsights` is the ladder of `if`s, written as one method per block of the
  source.
- The specification is `InsightIds(p)`: the sentences whose condition holds, in ladder order,
  padded with the two general sentences when fewer than two fired.

## Model

| member | source | states |
|---|---|---|
| GnnData.Carries | src/utils/gnnModel.ts:197 | `selectedMutations.includes(m)` holds iff some index of the list holds m |
| GnnModel.TableKeys | src/utils/gnnModel.ts:32-163 | (proof step) the constant `TreatmentTable` (the object literal of lines 32-163) has a list for exactly breast, lung, colorectal and prostate cancer and melanoma |
| GnnModel.UnknownTypeBase | src/utils/gnnModel.ts:194 | a cancer type the table does not know gets the default list |
| GnnModel.BaseTreatments | src/utils/gnnModel.ts:194 | the looked-up list always has three records, and is the default list for a type outside the table |
| GnnModel.BaseCases | src/utils/gnnModel.ts:32-194 | which three records each cancer type gets from `TreatmentTable`, and the records of `DefaultTreatments` (lines 166-191) for every other type |
| GnnModel.LungBase | src/utils/gnnModel.ts:59-84 | (proof step) lung cancer starts from Osimertinib, Pembrolizumab, Crizotinib |
| GnnModel.BreastBase | src/utils/gnnModel.ts:33-58 | (proof step) breast cancer starts from Tamoxifen, Trastuzumab (Herceptin), Palbociclib |
| GnnModel.Bump | src/utils/gnnModel.ts:198-203 | the `map` step returns a new list of the same length and names; only records with the given name have `delta` added to their efficacy, and every other field of every record is kept |
| GnnModel.BumpSingle | src/utils/gnnModel.ts:198-203 | when exactly one record has the name, the step changes that record's efficacy and nothing else |
| GnnModel.BumpAppend | src/utils/gnnModel.ts:198-203 | the step works record by record, so it distributes over concatenation |
| GnnModel.BumpOthers | src/utils/gnnModel.ts:198-203 | a list without a record of that name comes back unchanged |
| GnnModel.BumpThree | src/utils/gnnModel.ts:198-203 | on three records followed by records of other names, only the three can change |
| GnnModel.ApplyMutationRules | src/utils/gnnModel.ts:196-233 | the four rule steps, run in order on a local list, produce the rule function's result; the list grows by one exactly when BRCA1 or BRCA2 is selected |
| GnnModel.ApplyRules | src/utils/gnnModel.ts:196-233 | the four rules in source order; they add one record exactly when BRCA1 or BRCA2 is selected; the per-type content is stated by LungRules, BreastRules and OtherRules |
| GnnModel.Adjusted | src/utils/gnnModel.ts:194-233 | the list before sorting has at least the three looked-up records; LungAdjusted, BreastAdjusted and OtherTypesKeepBase give it in full |
| GnnModel.Predict | src/utils/gnnModel.ts:194-236 | the ranked list has as many records as the adjusted list; PredictSortedPermutation states that it is its sorted permutation |
| GnnModel.PredictTreatments | src/utils/gnnModel.ts:28-237 | returns `Predict(p)`, in non-increasing efficacy order, a permutation of the adjusted list, of length 3, or 4 with BRCA1/BRCA2 |
| GnnModel.PredictSortedPermutation | src/utils/gnnModel.ts:236 | the ranked list is sorted by efficacy, highest first, and is a permutation of the adjusted list |
| GnnModel.PredictLength | src/utils/gnnModel.ts:194-215 | three recommendations, or four when BRCA1 or BRCA2 is selected |
| GnnModel.LungRules | src/utils/gnnModel.ts:196-233 | on the lung list, EGFR adds 10 to Osimertinib and ALK adds 12 to Crizotinib; the HER2/neu rule does not fire, and no other record changes |
| GnnModel.BreastRules | src/utils/gnnModel.ts:196-233 | on the breast list, HER2/neu adds 15 to Trastuzumab; the EGFR and ALK rules do not fire |
| GnnModel.OtherRules | src/utils/gnnModel.ts:196-233 | outside lung and breast cancer, no score rule fires; only the PARP record may be appended |
| GnnModel.LungAdjusted | src/utils/gnnModel.ts:194-233 | lung cancer: Osimertinib becomes 95 with EGFR, else 85; Crizotinib becomes 94 with ALK, else 82; Pembrolizumab is unchanged; then the PARP record if BRCA |
| GnnModel.BreastAdjusted | src/utils/gnnModel.ts:194-233 | breast cancer: Trastuzumab becomes 94 with HER2/neu, else 79; the other two records are unchanged; then the PARP record if BRCA |
| GnnModel.OtherTypesKeepBase | src/utils/gnnModel.ts:194-233 | every other cancer type keeps its looked-up list whatever the mutations, plus the PARP record if BRCA |
| GnnModel.LungEgfrTop | src/utils/gnnModel.ts:197-236 | with EGFR, the sorted lung list starts with Osimertinib at 95 |
| GnnModel.LungAlkTop | src/utils/gnnModel.ts:226-236 | with ALK and without EGFR, the sorted lung list starts with Crizotinib at 94 |
| GnnModel.BreastHer2Top | src/utils/gnnModel.ts:217-236 | with HER2/neu, the sorted breast list starts with Trastuzumab at 94 |
| GnnModel.LungAlkPresent | src/utils/gnnModel.ts:226-236 | with ALK, the sorted lung list holds Crizotinib at 94 |
| GnnModel.EgfrLungRanksFirst | src/utils/gnnModel.ts:197-236 | EGFR in lung cancer: the first recommendation is Osimertinib with efficacy 95 |
| GnnModel.Her2BreastRanksFirst | src/utils/gnnModel.ts:217-236 | HER2/neu in breast cancer: the first recommendation is Trastuzumab with efficacy 94 |
| GnnModel.AlkLungBump | src/utils/gnnModel.ts:226-236 | ALK in lung cancer: Crizotinib is recommended with efficacy raised from 82 to 94 |
| GnnModel.AlkLungRanksFirst | src/utils/gnnModel.ts:226-236 | ALK without EGFR in lung cancer: Crizotinib at 94 ranks first |
| GnnModel.DefaultOrderPlain | src/utils/gnnModel.ts:166-191 | the default records rank Cisplatin (70), Nivolumab (68), Doxorubicin (65) |
| GnnModel.DefaultOrderBrca | src/utils/gnnModel.ts:166-215 | with the PARP record appended, it ranks first (86), ahead of the three default records |
| GnnModel.DefaultOrder | src/utils/gnnModel.ts:166-236 | the default records, with or without the PARP record, sort to the PARP record if present, then Cisplatin, Nivolumab, Doxorubicin |
| GnnModel.UnknownTypeDefaultOrder | src/utils/gnnModel.ts:165-236 | for a cancer type outside the table, the result is the PARP record (with BRCA), then Cisplatin, Nivolumab, Doxorubicin |
| GnnModel.ThreeRecords | src/utils/gnnModel.ts:206-215 | three records of distinct efficacies in 65..95, none 86, stay well formed when the PARP record (86) is appended; it is present exactly when appended |
| GnnModel.BreastListWellFormed | src/utils/gnnModel.ts:33-58 | the breast list has distinct efficacies in 65..95, with or without the PARP record |
| GnnModel.LungListWellFormed | src/utils/gnnModel.ts:59-84 | the same for the lung list |
| GnnModel.ColorectalListWellFormed | src/utils/gnnModel.ts:85-110 | the same for the colorectal list |
| GnnModel.ProstateListWellFormed | src/utils/gnnModel.ts:111-136 | the same for the prostate list |
| GnnModel.MelanomaListWellFormed | src/utils/gnnModel.ts:137-162 | the same for the melanoma list |
| GnnModel.DefaultListWellFormed | src/utils/gnnModel.ts:166-191 | the same for the default list |
| GnnModel.BaseWellFormed | src/utils/gnnModel.ts:32-194 | every list the lookup can give, with or without the PARP record, has distinct efficacies in 65..95 and holds the PARP record only when it was appended |
| GnnModel.LungWellFormed | src/utils/gnnModel.ts:196-233 | the adjusted lung records stay distinct and in 65..95 whatever the mutations |
| GnnModel.BreastWellFormed | src/utils/gnnModel.ts:196-233 | the adjusted breast records stay distinct and in 65..95 whatever the mutations |
| GnnModel.AdjustedWellFormed | src/utils/gnnModel.ts:194-233 | for any patient, the adjusted list has pairwise distinct efficacies in 65..95, so stability never decides the order; the PARP record is in it iff BRCA1 or BRCA2 is selected |
| GnnModel.OlaparibIffBrca | src/utils/gnnModel.ts:206-215 | the PARP inhibitor is recommended iff BRCA1 or BRCA2 is selected, with scores 86 and 80, for every cancer type |
| GnnModel.EfficacyBounds | src/utils/gnnModel.ts:32-236 | every recommended efficacy lies between 0.65 and 0.95: the unclamped additions never pass 1 |
| EfficacySort.Insert | src/utils/gnnModel.ts:236 | one insertion step of the stable descending order adds one record; InsertSorted, InsertPermutes and InsertStable state where |
| EfficacySort.SortDesc | src/utils/gnnModel.ts:236 | the stable descending order keeps the length; SortDescSorted, SortDescPermutes and SortDescStable state that it is the comparator's order |
| EfficacySort.InsertionPoint | src/utils/gnnModel.ts:236 | the position where a record is inserted lies within the list |
| EfficacySort.InsertSplit | src/utils/gnnModel.ts:236 | insertion places the record after every record of at least its efficacy that precedes the point, and before the lower ones after it |
| EfficacySort.InsertShape | src/utils/gnnModel.ts:236 | in a sorted list, insertion puts the record after all records of at least its efficacy and before all lower ones |
| EfficacySort.InsertSorted | src/utils/gnnModel.ts:236 | inserting into a sorted list keeps it sorted |
| EfficacySort.InsertPermutes | src/utils/gnnModel.ts:236 | insertion adds exactly the one record to the multiset |
| EfficacySort.SortDescSorted | src/utils/gnnModel.ts:236 | the sorted list is in non-increasing efficacy order |
| EfficacySort.SortDescPermutes | src/utils/gnnModel.ts:236 | the sorted list is a permutation of the input |
| EfficacySort.SortDescStep | src/utils/gnnModel.ts:236 | sorting one more input record inserts it into the sorted prefix |
| EfficacySort.InsertStable | src/utils/gnnModel.ts:236 | insertion keeps the input order within every efficacy value |
| EfficacySort.MoveBelowLowerStable | src/utils/gnnModel.ts:236 | moving a record past lower-efficacy records does not reorder any efficacy class |
| EfficacySort.NoneWithEfficacy | src/utils/gnnModel.ts:236 | a list whose records are all below `e` has no record of efficacy `e` |
| EfficacySort.WithEfficacyAppend | src/utils/gnnModel.ts:236 | the records of one efficacy in a concatenation are those of each part, in order |
| EfficacySort.SortDescStable | src/utils/gnnModel.ts:236 | stability: records of equal efficacy keep their input order, as `Array.prototype.sort` guarantees |
| EfficacySort.TopIsStrictMaximum | src/utils/gnnModel.ts:236 | a record strictly above every other record's efficacy comes first |
| EfficacySort.StrictMaximumFirst | src/utils/gnnModel.ts:236 | the record at index `k`, strictly above all others, comes first |
| EfficacySort.InsertFromRight | src/utils/gnnModel.ts:236 | shifting a record left past lower ones to a position after a higher-or-equal one is insertion |
| EfficacySort.SortedArrangementUnique | src/utils/gnnModel.ts:236 | a sorted list with the same multiset as a strictly decreasing list equals it |
| EfficacySort.SameFirst | src/utils/gnnModel.ts:236 | such a sorted list and a strictly decreasing list start with the same record |
| EfficacySort.MultisetTail | src/utils/gnnModel.ts:236 | dropping the first record removes exactly it from the multiset |
| EfficacySort.SortDescOfDistinct | src/utils/gnnModel.ts:236 | sorting a permutation of a strictly decreasing list gives that list |
| EfficacySort.Landed | src/utils/gnnModel.ts:236 | the array after the last shift holds the sorted prefix with the record at its insertion point |
| EfficacySort.InsertAt | src/utils/gnnModel.ts:236 | one in-place step: the record at `i` is moved left into the sorted prefix, and the rest of the array is unchanged |
| EfficacySort.SortByEfficacy | src/utils/gnnModel.ts:236 | sorts the array in place into the stable descending order of its contents |
| Insights.Applies | src/utils/gnnModel.ts:243-298 | the condition of each `if` of the ladder; no condition adds one of the two general sentences |
| Insights.Fired | src/utils/gnnModel.ts:243-298 | running the conditions of a list in order keeps only sentences whose condition holds, at most one per test |
| Insights.Padded | src/utils/gnnModel.ts:300-304 | the padding only appends, and leaves at least two sentences |
| Insights.InsightIds | src/utils/gnnModel.ts:240-307 | `generateInsights` always reports at least two sentences |
| Insights.Texts | src/utils/gnnModel.ts:240-307 | each reported sentence is the fixed wording `Text` gives its insight (the string literals of lines 244-304), in order |
| Insights.FiredAppend | src/utils/gnnModel.ts:243-298 | evaluating the ladder in two parts concatenates what each part fires |
| Insights.FiredMembers | src/utils/gnnModel.ts:243-298 | a sentence fires iff it is in the ladder and its condition holds |
| Insights.FiredAscending | src/utils/gnnModel.ts:243-298 | what fires keeps the ladder's order |
| Insights.AscendingCount | src/utils/gnnModel.ts:243-298 | a list in ladder order holds each sentence at most once |
| Insights.LadderOrderAscending | src/utils/gnnModel.ts:243-298 | the ladder tests its conditions in one fixed order, with no sentence twice |
| Insights.FiredBlock | src/utils/gnnModel.ts:243-298 | one block of the ladder appends what it fires |
| Insights.FiredBlocks | src/utils/gnnModel.ts:243-298 | the six blocks together fire what the whole ladder fires |
| Insights.PushBreastInsights | src/utils/gnnModel.ts:244-254 | breast cancer pushes the hormone-receptor sentence, then the BRCA one, then the HER2 one, each under its condition |
| Insights.PushLungInsights | src/utils/gnnModel.ts:256-268 | lung cancer pushes the EGFR sentence, the ALK sentence, and the no-actionable sentence when neither was selected |
| Insights.PushColorectalInsights | src/utils/gnnModel.ts:270-276 | colorectal cancer pushes exactly one of the two KRAS sentences |
| Insights.PushMelanomaInsights | src/utils/gnnModel.ts:278-284 | melanoma pushes exactly one of the two BRAF sentences |
| Insights.PushMutationInsights | src/utils/gnnModel.ts:287-289 | TP53 pushes its sentence for every cancer type |
| Insights.PushResponseInsights | src/utils/gnnModel.ts:292-298 | with both previous-treatment fields filled, "progressive" pushes the progression sentence, "complete" or "partial" the positive one |
| Insights.GenerateInsights | src/utils/gnnModel.ts:240-307 | the ladder's output is the wording of the fired sentences in ladder order, padded by the two general ones when fewer than two fired |
| Insights.LadderOrderComplete | src/utils/gnnModel.ts:243-304 | every sentence except the two general ones has a condition in the ladder |
| Insights.InsightsInLadderOrder | src/utils/gnnModel.ts:240-307 | the reported sentences are in ladder order, general ones last, with no repeats |
| Insights.InsightCount | src/utils/gnnModel.ts:240-307 | each condition's sentence is reported once if its condition holds and not at all otherwise |
| Insights.FallbacksIff | src/utils/gnnModel.ts:300-304 | the general sentences appear iff fewer than two conditions held, and then they close the list; otherwise the list is exactly what fired |
| Insights.NothingFiredGivesFallbacks | src/utils/gnnModel.ts:240-307 | a type without a block, no TP53 and no previous treatment give exactly the two general sentences |
| Insights.NoActionableIff | src/utils/gnnModel.ts:265-267 | the no-actionable sentence appears iff lung cancer without EGFR and without ALK |
| Insights.ColorectalKrasExactlyOne | src/utils/gnnModel.ts:270-276 | colorectal cancer reports exactly one KRAS sentence, the resistance one iff KRAS is selected |
| Insights.MelanomaBrafExactlyOne | src/utils/gnnModel.ts:278-284 | melanoma reports exactly one BRAF sentence, the V600 one iff BRAF is selected |
| Insights.ResponseInsights | src/utils/gnnModel.ts:292-298 | the progression and positive-response sentences appear under their conditions and never together |
| Insights.BreastStartsWithHormoneReceptor | src/utils/gnnModel.ts:244-245 | for breast cancer, the first sentence is the hormone-receptor one |
| ResultsPage.Capitalize | src/pages/ResultsPage.tsx:125 | capitalizing keeps a word's length |
| ResultsPage.CapitalizeAll | src/pages/ResultsPage.tsx:125 | every word is capitalized, and the word count is kept |
| ResultsPage.CancerDisplayName | src/pages/ResultsPage.tsx:121-127 | an empty cancer type reads "Unknown" |
| ResultsPage.Titled | src/pages/ResultsPage.tsx:123-126 | the character-wise title form keeps the length |
| ResultsPage.JoinFront | src/pages/ResultsPage.tsx:126 | the first character of the first word stays at the front of the joined text |
| ResultsPage.JoinWordsTitled | src/pages/ResultsPage.tsx:123-126 | splitting on '-', capitalizing each word and joining with spaces equals the character-wise title form |
| ResultsPage.TitledChars | src/pages/ResultsPage.tsx:123-126 | the title form has a space for each '-', a capital after each '-' and at the start, and the character itself elsewhere |
| ResultsPage.DisplayNameChars | src/pages/ResultsPage.tsx:121-127 | the display name of a non-empty type has its length; every '-' becomes a space, and every segment's first letter is upper-cased |
| ResultsPage.DisplayNameHasNoHyphen | src/pages/ResultsPage.tsx:121-127 | no '-' survives in a display name |
| ResultsPage.OccurrencesMatch | src/pages/ResultsPage.tsx:123-126 | strings that have `x` and `y` at the same positions have equally many of them |
| ResultsPage.DisplayNameWordCount | src/pages/ResultsPage.tsx:123-126 | a type without spaces shows as many words as it has '-'-separated segments |
| ResultsPage.StageDisplay | src/pages/ResultsPage.tsx:186-188 | an empty stage reads "Not specified"; a filled-in stage reads with no lower-case letter |
| ResultsPage.ToUpperCaseAppend | src/pages/ResultsPage.tsx:187 | upper-casing distributes over concatenation |
| ResultsPage.StagePrefix | src/pages/ResultsPage.tsx:187 | "stage-" followed by any rest reads "STAGE " followed by the rest in capitals |
| ResultsPage.StageLength | src/pages/ResultsPage.tsx:187 | the stage text keeps the length of the stored stage |
| ResultsPage.StageWithoutPrefix | src/pages/ResultsPage.tsx:187 | a stage without "stage-" in it is only upper-cased |
| ResultsPage.StageShownAs | src/pages/ResultsPage.tsx:187 | a value "stage-…" reads as the text "Stage …" in capitals when the two agree after the prefix up to case |
| ResultsPage.UpperAgree | src/pages/ResultsPage.tsx:187 | strings that agree up to case upper-case to the same string |
| ResultsPage.UpperStageWord | src/pages/ResultsPage.tsx:187 | (proof step) "Stage " upper-cases to "STAGE " |
| ResultsPage.StageThree | src/pages/ResultsPage.tsx:186-188 | "stage-iii" reads "STAGE III" |
| ResultsPage.Ranked | src/pages/ResultsPage.tsx:228-237 | one card per treatment, in order, with consecutive ranks |
| ResultsPage.TopCards | src/pages/ResultsPage.tsx:228-237 | at most three cards; card `i` shows treatment `i` with rank `i + 1` |
| DataInputForm.HandleInputChange | src/components/DataInputForm.tsx:72-77 | the named field takes the value; every other field, the mutations and the expression levels are unchanged |
| DataInputForm.HandleInputChangeUnchanged | src/components/DataInputForm.tsx:72-77 | setting a field to its current value changes nothing |
| DataInputForm.Remove | src/components/DataInputForm.tsx:85 | the filter keeps exactly the entries other than the mutation |
| DataInputForm.RemoveAppend | src/components/DataInputForm.tsx:85 | the filter distributes over concatenation, so the other selections keep their order |
| DataInputForm.RemoveCounts | src/components/DataInputForm.tsx:85 | the filter drops every copy of the mutation and keeps every other entry as often as before |
| DataInputForm.RemoveAbsent | src/components/DataInputForm.tsx:85 | filtering out an absent mutation changes nothing |
| DataInputForm.RemoveSelf | src/components/DataInputForm.tsx:85 | (proof step) filtering a mutation out of the list of just that mutation leaves nothing |
| DataInputForm.ToggleMutation | src/components/DataInputForm.tsx:79-94 | toggling flips whether the mutation is selected and leaves every other selection's membership and every other field alone; an unselected mutation is appended at the end |
| DataInputForm.ToggleSelected | src/components/DataInputForm.tsx:82-86 | toggling a selected mutation drops it and keeps the other selections in their order |
| DataInputForm.ToggleSelectedCounts | src/components/DataInputForm.tsx:82-86 | toggling a selected mutation removes all its copies and keeps every other selection as often as before |
| DataInputForm.ToggleTwice | src/components/DataInputForm.tsx:79-94 | toggling an unselected mutation twice restores the form |
| DataInputForm.SetExpressionLevel | src/components/DataInputForm.tsx:96-104 | the gene gets the level; other genes keep their presence and levels; no other field changes |
| DataInputForm.SetExpressionLevelTwice | src/components/DataInputForm.tsx:96-104 | setting the same gene twice keeps only the second level |
| DataInputForm.HandleSubmit | src/components/DataInputForm.tsx:106-122 | submit is rejected iff the patient ID or the cancer type is empty; otherwise the form is stored unchanged |
| DataInputForm.StageOptionsShown | src/components/DataInputForm.tsx:215-218 | the results page shows each stage option's value as the option's own text in capitals, e.g. "stage-ii" as "STAGE II" |
| DataInputForm.CollapseRuns | src/components/DataInputForm.tsx:197 | replacing white-space runs leaves no white space and no new character other than '-'; what each run becomes is stated by CollapseWhiteRun and CollapseWordRun |
| DataInputForm.CollapseWhiteRun | src/components/DataInputForm.tsx:197 | a maximal run of white space of any length becomes exactly one '-' (none when it continues a run), and the text after it is replaced on its own |
| DataInputForm.CollapseWordRun | src/components/DataInputForm.tsx:197 | a stretch without white space is kept character for character, so together with CollapseWhiteRun every string, cut into alternating runs, is replaced run by run |
| DataInputForm.Slug | src/components/DataInputForm.tsx:197 | `type.toLowerCase().replace(/\s+/g, '-')` is no longer than the label and holds no white space |
| DataInputForm.SlugShape | src/components/DataInputForm.tsx:197 | a slug is no longer than its label and has no white space and no upper-case letter |
| DataInputForm.CollapseRunsChars | src/components/DataInputForm.tsx:197 | on text without double white space, each white-space character becomes one '-' in place |
| DataInputForm.SlugChars | src/components/DataInputForm.tsx:197 | the slug of a single-spaced label has its length: '-' for white space, the lower-case letter elsewhere |
| DataInputForm.SlugCharShown | src/components/DataInputForm.tsx:196-198 | each position of a title-case label comes back from its slug on the results page |
| DataInputForm.DisplayNameOfSlug | src/components/DataInputForm.tsx:196-198 | round trip: the results page shows any non-empty title-case label again from its slug |
| DataInputForm.WordLower | src/components/DataInputForm.tsx:197 | lower-casing a capitalized word changes only its first letter |
| DataInputForm.CollapseNoSpace | src/components/DataInputForm.tsx:197 | text without white space passes the replacement unchanged |
| DataInputForm.LowerWordNoSpace | src/components/DataInputForm.tsx:197 | a lower-cased capitalized word has no white space |
| DataInputForm.WordSlug | src/components/DataInputForm.tsx:197 | a one-word label's slug is the word lower-cased |
| DataInputForm.LowerAroundSpace | src/components/DataInputForm.tsx:197 | lower-casing leaves the space between two words in place |
| DataInputForm.CollapseSplit | src/components/DataInputForm.tsx:197 | a word, one space and more text become the word, '-', and the rest replaced |
| DataInputForm.TwoWordSlug | src/components/DataInputForm.tsx:197 | a two-word label's slug is the lower-cased words joined by '-' |
| DataInputForm.TwoWordTitleCase | src/components/DataInputForm.tsx:20-29 | two capitalized words joined by a space form a title-case label |
| DataInputForm.WordTitleCase | src/components/DataInputForm.tsx:20-29 | a capitalized word is a title-case label |
| DataInputForm.TwoWordRoundTrip | src/components/DataInputForm.tsx:196-198 | a two-word label shows again from its slug |
| DataInputForm.WordRoundTrip | src/components/DataInputForm.tsx:196-198 | a one-word label shows again from its slug |
| DataInputForm.LabelWords | src/components/DataInputForm.tsx:20-29 | (proof step) every word of the offered labels is capitalized |
| DataInputForm.LabelsRoundTrip | src/components/DataInputForm.tsx:20-29 | each of the eight cancer-type labels the form offers shows again as itself on the results page |
| DataInputForm.LabelSlug | src/components/DataInputForm.tsx:20-29 | the k-th label the form offers is stored as the k-th of "breast-cancer", "lung-cancer", "colorectal-cancer", "prostate-cancer", "melanoma", "leukemia", "lymphoma", "ovarian-cancer" |
| DataInputForm.TwoWordSlugOf | src/components/DataInputForm.tsx:197 | (proof step) a two-word label's slug, written out |
| DataInputForm.WordSlugOf | src/components/DataInputForm.tsx:197 | (proof step) a one-word label's slug, written out |
| DataInputForm.SlugBreastCancer | src/components/DataInputForm.tsx:21 | (proof step) "Breast Cancer" is stored as "breast-cancer" |
| DataInputForm.SlugLungCancer | src/components/DataInputForm.tsx:22 | (proof step) "Lung Cancer" is stored as "lung-cancer" |
| DataInputForm.SlugColorectalCancer | src/components/DataInputForm.tsx:23 | (proof step) "Colorectal Cancer" is stored as "colorectal-cancer" |
| DataInputForm.SlugProstateCancer | src/components/DataInputForm.tsx:24 | (proof step) "Prostate Cancer" is stored as "prostate-cancer" |
| DataInputForm.SlugMelanoma | src/components/DataInputForm.tsx:25 | (proof step) "Melanoma" is stored as "melanoma" |
| DataInputForm.SlugLeukemia | src/components/DataInputForm.tsx:26 | (proof step) "Leukemia" is stored as "leukemia" |
| DataInputForm.SlugLymphoma | src/components/DataInputForm.tsx:27 | (proof step) "Lymphoma" is stored as "lymphoma" |
| DataInputForm.SlugOvarianCancer | src/components/DataInputForm.tsx:28 | (proof step) "Ovarian Cancer" is stored as "ovarian-cancer" |
| DataInputForm.TableLabels | src/components/DataInputForm.tsx:20-25 | the first five labels are stored under cancer types the treatment table knows |
| DataInputForm.UnknownSlugs | src/utils/gnnModel.ts:32-163 | (proof step) "leukemia", "lymphoma" and "ovarian-cancer" are not keys of the treatment table |
| DataInputForm.DefaultLabels | src/components/DataInputForm.tsx:26-28 | Leukemia, Lymphoma and Ovarian Cancer are stored under types the table does not know, so they get the default treatments |
| JsString.IsWhitespace | src/components/DataInputForm.tsx:197 | the `\s` class (ECMAScript WhiteSpace and LineTerminator) holds no letter and not '-' |
| JsString.UpperChar | src/pages/ResultsPage.tsx:125 | `toUpperCase` on one character: the result is never a lower-case letter; a lower-case letter becomes a capital; every other character is kept |
| JsString.LowerChar | src/components/DataInputForm.tsx:197 | `toLowerCase` on one character: the result is never a capital; a capital becomes a lower-case letter; every other character is kept |
| JsString.ToUpperCase | src/pages/ResultsPage.tsx:187 | upper-casing keeps the length and works character by character |
| JsString.ToLowerCase | src/components/DataInputForm.tsx:197 | lower-casing keeps the length and works character by character |
| JsString.Split | src/pages/ResultsPage.tsx:124 | `split('-')` gives at least one piece, and no piece holds the separator |
| JsString.Join | src/pages/ResultsPage.tsx:126 | `join(' ')` starts with the first piece; JoinSplit states that it undoes `split` |
| JsString.SplitCount | src/pages/ResultsPage.tsx:124 | splitting gives one piece more than there are separators |
| JsString.JoinSplit | src/pages/ResultsPage.tsx:124-126 | joining the pieces with the same separator gives the string back |
| JsString.ReplaceFirst | src/pages/ResultsPage.tsx:187 | `replace` with a string pattern grows the string by at most the replacement's length |
| JsString.OccursInTail | src/pages/ResultsPage.tsx:187 | (proof step) an occurrence in the tail is an occurrence one place later |
| JsString.FirstOccurrenceInTail | src/pages/ResultsPage.tsx:187 | (proof step) a first occurrence after the start is a first occurrence in the tail |
| JsString.ReplaceFirstAt | src/pages/ResultsPage.tsx:187 | `replace` substitutes the FIRST occurrence: with the pattern first at i, the result is the text before i, the replacement, and the text after that occurrence |
| JsString.ReplaceFirstLength | src/pages/ResultsPage.tsx:187 | replacing "stage-" with "Stage " keeps the length |
| JsString.ReplaceFirstAbsent | src/pages/ResultsPage.tsx:187 | when the pattern does not occur, `replace` returns the string unchanged |

## Left out

- Browser effects are not modelled: `localStorage`, the `toast` messages, the `setTimeout`
  delay, navigation, and the rendering of React components. The stored form is the value
  `HandleSubmit` returns, and the loading flag is not part of the model.
- The results page's loading from `localStorage` is not modelled: parsing the stored JSON,
  and the redirect when nothing is stored or parsing fails. The page calls
  `predictTreatments` and `generateInsights` on the parsed data, and both are modelled.
- Static or display-only parts of the results page are not modelled: `mockModelData`, the
  model-details tab, the PDF and share buttons, the analysis date (`new Date()`), and the
  patient ID and mutation list shown as they are.
- Floating point is not modelled. Scores are integer hundredths, which is exact for the
  two-decimal constants but only exact up to IEEE-754 rounding for the three additions: in
  doubles 0.85 + 0.1 and 0.82 + 0.12 give 0.95 and 0.94, but 0.79 + 0.15 (the HER2/neu bump of
  Trastuzumab, src/utils/gnnModel.ts:220) gives 0.9400000000000001, where the model has 94.
  The rounding changes no order (GnnModel.AdjustedWellFormed: all efficacies of one list are
  at least one hundredth apart), no bound (GnnModel.EfficacyBounds) and no percentage shown
  on a card, which rounds `efficacyScore * 100` to a whole number.
- JsString.UpperChar and JsString.LowerChar map ASCII letters only, where JavaScript's case
  mapping covers all of Unicode. Every label, stage value and cancer type the application
  produces is ASCII.
- GnnModel.BaseTreatments does not model keys that a plain JavaScript object inherits, such
  as `treatments["constructor"]`. The form never produces such a cancer type.
- A missing `patientData` (`patientData?.cancerType` undefined) is modelled as the empty
  string, which the source treats the same way ("Unknown", "Not specified").
- DataInputForm.HandleInputChange takes one of the eight text fields the form passes. The
  source's `[field]: value` would also accept any other key; the form never does that.
- Insights.GenerateInsights runs the ladder as six block methods, one per `if` block of the
  source, called in source order, instead of one long method body. The pushes and their
  order are the same.
- `generateInsights` takes the recommended treatments as a parameter but never reads them.
  The model keeps the parameter and ignores it, like the source.
- ResultsPage.StageThree states the concrete text for "stage-iii" only.
  DataInputForm.StageOptionsShown covers all four stage options of the form, in terms of
  their option texts.
- DataInputForm.DisplayNameOfSlug proves the round trip for title-case labels with single
  spaces. A label such as "Breast  cancer" does not come back as itself, and the form offers
  no such label.
- In `predictTreatments`, the table literal is rebuilt on every call. Pushing the PARP
  record onto the looked-up array therefore never leaks into a later call, so the model
  treats the lookup as returning a fresh list value.
- The efficacy score is not clamped to 1 in the source, and it is not clamped here either.
  GnnModel.EfficacyBounds shows that no reachable score exceeds 0.95.
