/**
 * The pure display logic of src/pages/ResultsPage.tsx: the cancer-type display name, the
 * cancer-stage display text and the three treatment cards built from the ranked list.
 */
module ResultsPage {
  import opened JsString
  import opened GnnData

  // ---------------------------------------------------------------------------
  // Cancer-type display name
  // ---------------------------------------------------------------------------

  /** `word.charAt(0).toUpperCase() + word.slice(1)`: the empty word stays empty. */
  function Capitalize(w: string): (r: string)
    ensures |r| == |w|
  {
    if w == [] then [] else [UpperChar(w[0])] + w[1..]
  }

  /** `.map(Capitalize)` */
  function CapitalizeAll(words: seq<string>): (r: seq<string>)
    ensures |r| == |words|
    ensures forall k :: 0 <= k < |words| ==> r[k] == Capitalize(words[k])
  {
    if words == [] then [] else [Capitalize(words[0])] + CapitalizeAll(words[1..])
  }

  /** `getCancerDisplayName`: a missing type reads "Unknown"; otherwise the '-'-separated
      words are capitalized and joined with spaces. */
  function CancerDisplayName(t: string): (r: string)
    ensures t == [] ==> r == "Unknown"
  {
    if t == [] then "Unknown" else Join(CapitalizeAll(Split(t, '-')), ' ')
  }

  /** What the display name shows at position `i` of `t`: a space for a '-', the upper-case
      letter at the start of a word, the character itself elsewhere. */
  function DisplayChar(t: string, i: nat): char
    requires i < |t|
  {
    if t[i] == '-' then ' '
    else if i == 0 || t[i - 1] == '-' then UpperChar(t[i])
    else t[i]
  }

  /** Position `i` of `s` begins a word: it follows a '-', or it is the first position and
      `s` itself begins a word. */
  predicate WordStart(s: string, i: nat, atStart: bool)
    requires i < |s|
  {
    if i == 0 then atStart else s[i - 1] == '-'
  }

  /** The display name character by character: `atStart` says whether `s` begins a word. */
  function Titled(s: string, atStart: bool): (r: string)
    ensures |r| == |s|
  {
    if s == [] then []
    else if s[0] == '-' then [' '] + Titled(s[1..], true)
    else [if atStart then UpperChar(s[0]) else s[0]] + Titled(s[1..], false)
  }

  /** The words of `s`, the first capitalized only when `capFirst`, joined with spaces. */
  function JoinWords(parts: seq<string>, capFirst: bool): string
    requires parts != []
  {
    Join([if capFirst then Capitalize(parts[0]) else parts[0]] + CapitalizeAll(parts[1..]), ' ')
  }

  lemma JoinFront(c: char, w: string, rest: seq<string>)
    ensures Join([[c] + w] + rest, ' ') == [c] + Join([w] + rest, ' ')
  {
    assert ([[c] + w] + rest)[1..] == rest;
    assert ([w] + rest)[1..] == rest;
  }

  /** Splitting, capitalizing and joining is the character-by-character rewriting. */
  lemma {:induction false} JoinWordsTitled(s: string, capFirst: bool)
    ensures JoinWords(Split(s, '-'), capFirst) == Titled(s, capFirst)
  {
    if s != [] {
      var rest := Split(s[1..], '-');
      JoinWordsTitled(s[1..], s[0] == '-');
      if s[0] == '-' {
        var parts := Split(s, '-');
        assert parts == [[]] + rest;
        assert parts[1..] == rest;
        var tail := CapitalizeAll(rest);
        assert tail == [Capitalize(rest[0])] + CapitalizeAll(rest[1..]);
        assert JoinWords(parts, capFirst) == Join([[]] + tail, ' ');
        assert ([[]] + tail)[1..] == tail;
      } else {
        var parts := Split(s, '-');
        assert parts == [[s[0]] + rest[0]] + rest[1..];
        assert parts[1..] == rest[1..];
        var first := [s[0]] + rest[0];
        var c := if capFirst then UpperChar(s[0]) else s[0];
        assert (if capFirst then Capitalize(first) else first) == [c] + rest[0] by {
          assert first[1..] == rest[0];
        }
        JoinFront(c, rest[0], CapitalizeAll(rest[1..]));
      }
    }
  }

  /** Titled, position by position. */
  lemma {:induction false} TitledChars(s: string, atStart: bool)
    ensures forall i :: 0 <= i < |s| ==>
              Titled(s, atStart)[i] ==
                if s[i] == '-' then ' ' else if WordStart(s, i, atStart) then UpperChar(s[i]) else s[i]
  {
    if s != [] {
      var t := Titled(s, atStart);
      var t' := Titled(s[1..], s[0] == '-');
      TitledChars(s[1..], s[0] == '-');
      assert t[1..] == t';
      forall i | 0 <= i < |s|
        ensures t[i] == if s[i] == '-' then ' ' else if WordStart(s, i, atStart) then UpperChar(s[i]) else s[i]
      {
        if i >= 1 {
          assert t[i] == t'[i - 1];
          assert s[1..][i - 1] == s[i];
          if i >= 2 {
            assert s[1..][i - 2] == s[i - 1];
          }
        }
      }
    }
  }

  /** The display name of a non-empty type has the type's length, and each of its
      characters is DisplayChar: '-' becomes a space, each word starts with a capital, and
      everything else is kept. */
  lemma DisplayNameChars(t: string)
    requires t != []
    ensures |CancerDisplayName(t)| == |t|
    ensures forall i :: 0 <= i < |t| ==> CancerDisplayName(t)[i] == DisplayChar(t, i)
  {
    JoinWordsTitled(t, true);
    TitledChars(t, true);
    var parts := Split(t, '-');
    assert parts == [parts[0]] + parts[1..];
    assert CapitalizeAll(parts) == [Capitalize(parts[0])] + CapitalizeAll(parts[1..]);
    assert CancerDisplayName(t) == Titled(t, true);
    forall i | 0 <= i < |t|
      ensures CancerDisplayName(t)[i] == DisplayChar(t, i)
    {
    }
  }

  /** No '-' survives in a display name. */
  lemma DisplayNameHasNoHyphen(t: string)
    ensures '-' !in CancerDisplayName(t)
  {
    if t != [] {
      DisplayNameChars(t);
      var r := CancerDisplayName(t);
      forall i | 0 <= i < |r|
        ensures r[i] != '-'
      {
      }
    }
  }

  /** Two strings of the same length with `x` in `a` exactly where `y` is in `b` have
      as many `x`s as `b` has `y`s. */
  lemma {:induction false} OccurrencesMatch(a: string, x: char, b: string, y: char)
    requires |a| == |b|
    requires forall i :: 0 <= i < |a| ==> (a[i] == x <==> b[i] == y)
    ensures Occurrences(a, x) == Occurrences(b, y)
  {
    if a != [] {
      var n := |a| - 1;
      assert a == a[..n] + [a[n]];
      assert b == b[..n] + [b[n]];
      OccurrencesMatch(a[..n], x, b[..n], y);
    }
  }

  /** For a type without spaces the display name has one word per '-'-separated part. */
  lemma DisplayNameWordCount(t: string)
    requires t != [] && ' ' !in t
    ensures |Split(CancerDisplayName(t), ' ')| == |Split(t, '-')|
  {
    var r := CancerDisplayName(t);
    DisplayNameChars(t);
    forall i | 0 <= i < |t|
      ensures r[i] == ' ' <==> t[i] == '-'
    {
    }
    OccurrencesMatch(r, ' ', t, '-');
    SplitCount(r, ' ');
    SplitCount(t, '-');
  }

  // ---------------------------------------------------------------------------
  // Cancer-stage display
  // ---------------------------------------------------------------------------

  /** `cancerStage ? cancerStage.replace('stage-', 'Stage ').toUpperCase() : "Not specified"` */
  function StageDisplay(stage: string): (r: string)
    ensures stage == [] ==> r == "Not specified"
    ensures stage != [] ==> forall i :: 0 <= i < |r| ==> !IsLower(r[i])
  {
    if stage == [] then "Not specified"
    else ToUpperCase(ReplaceFirst(stage, "stage-", "Stage "))
  }

  lemma {:induction false} ToUpperCaseAppend(a: string, b: string)
    ensures ToUpperCase(a + b) == ToUpperCase(a) + ToUpperCase(b)
  {
    var s := a + b;
    var ua, ub := ToUpperCase(a), ToUpperCase(b);
    var l, r := ToUpperCase(s), ua + ub;
    assert |l| == |r|;
    forall i | 0 <= i < |l|
      ensures l[i] == r[i]
    {
      assert l[i] == UpperChar(s[i]);
      if i < |a| {
        assert s[i] == a[i] && r[i] == ua[i];
      } else {
        assert s[i] == b[i - |a|] && r[i] == ub[i - |a|];
      }
    }
  }

  /** A stage value "stage-…" reads "STAGE " followed by the upper-cased rest. */
  lemma StagePrefix(rest: string)
    ensures StageDisplay("stage-" + rest) == "STAGE " + ToUpperCase(rest)
  {
    var s := "stage-" + rest;
    assert "stage-" <= s;
    assert s[6..] == rest;
    assert ReplaceFirst(s, "stage-", "Stage ") == "Stage " + rest;
    ToUpperCaseAppend("Stage ", rest);
    UpperStageWord("Stage ");
  }

  /** The display keeps the length of a filled-in stage. */
  lemma StageLength(stage: string)
    requires stage != []
    ensures |StageDisplay(stage)| == |stage|
  {
    ReplaceFirstLength(stage, "stage-", "Stage ");
  }

  /** A stage without "stage-" in it is only upper-cased. */
  lemma StageWithoutPrefix(stage: string)
    requires stage != []
    requires forall i :: !OccursAt(stage, "stage-", i)
    ensures StageDisplay(stage) == ToUpperCase(stage)
  {
    ReplaceFirstAbsent(stage, "stage-", "Stage ");
  }

  /** A stage value "stage-…" reads as the text "Stage …" in capitals, when the two agree
      after "stage-" up to case. */
  lemma StageShownAs(stage: string, text: string)
    requires |stage| == |text| && |stage| >= 6
    requires stage[..6] == "stage-" && text[..6] == "Stage "
    requires forall i :: 6 <= i < |stage| ==> UpperChar(stage[i]) == UpperChar(text[i])
    ensures StageDisplay(stage) == ToUpperCase(text)
  {
    var rest, tail := stage[6..], text[6..];
    assert StageDisplay(stage) == "STAGE " + ToUpperCase(rest) by {
      assert stage == "stage-" + rest;
      StagePrefix(rest);
    }
    assert ToUpperCase(text) == "STAGE " + ToUpperCase(tail) by {
      assert text == "Stage " + tail;
      ToUpperCaseAppend("Stage ", tail);
      UpperStageWord("Stage ");
    }
    assert ToUpperCase(rest) == ToUpperCase(tail) by {
      forall i | 0 <= i < |rest|
        ensures UpperChar(rest[i]) == UpperChar(tail[i])
      {
        assert rest[i] == stage[i + 6] && tail[i] == text[i + 6];
      }
      UpperAgree(rest, tail);
    }
  }

  /** Two strings that agree up to case upper-case to the same string. */
  lemma UpperAgree(a: string, b: string)
    requires |a| == |b|
    requires forall i :: 0 <= i < |a| ==> UpperChar(a[i]) == UpperChar(b[i])
    ensures ToUpperCase(a) == ToUpperCase(b)
  {
  }

  /** The replacement text in capitals. */
  lemma UpperStageWord(w: string)
    requires w == "Stage "
    ensures ToUpperCase(w) == "STAGE "
  {
  }

  /** The third stage the form offers reads "STAGE III". */
  lemma StageThree(stage: string)
    requires stage == "stage-iii"
    ensures StageDisplay(stage) == "STAGE III"
  {
    var rest := stage[6..];
    assert stage == "stage-" + rest;
    StagePrefix(rest);
    assert ToUpperCase(rest) == "III" by {
      assert rest == "iii";
    }
  }

  // ---------------------------------------------------------------------------
  // Treatment cards
  // ---------------------------------------------------------------------------

  /** The properties one TreatmentCard is given: a treatment and its rank. */
  datatype TreatmentCard = TreatmentCard(rank: int, treatment: Treatment)

  /** Cards for `ts`, ranked from `first` on. */
  function Ranked(ts: seq<Treatment>, first: int): (r: seq<TreatmentCard>)
    ensures |r| == |ts|
    ensures forall i :: 0 <= i < |ts| ==> r[i].rank == first + i && r[i].treatment == ts[i]
  {
    if ts == [] then [] else [TreatmentCard(first, ts[0])] + Ranked(ts[1..], first + 1)
  }

  /** `treatments.slice(0, 3).map((treatment, index) => <TreatmentCard rank={index + 1} …/>)` */
  function TopCards(ts: seq<Treatment>): (r: seq<TreatmentCard>)
    ensures |r| == if |ts| < 3 then |ts| else 3
    ensures forall i :: 0 <= i < |r| ==> r[i].rank == i + 1 && r[i].treatment == ts[i]
  {
    Ranked(if |ts| < 3 then ts else ts[..3], 1)
  }
}
