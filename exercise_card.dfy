/**
 * The lookup helpers of the exercise card: the badge classes for a
 * difficulty, the emoji for a muscle group, and the text-colour class the
 * badge label takes from the first of the badge classes.  Lower-casing is
 * modelled for ASCII letters only.
 */
module ExerciseCard {

  /** `toLowerCase` on one character, ASCII letters only. */
  function LowerChar(c: char): char
  {
    if 'A' <= c <= 'Z' then (c as int - 'A' as int + 'a' as int) as char else c
  }

  /** `toLowerCase` on a string, ASCII letters only. */
  function ToLower(s: string): (r: string)
    ensures |r| == |s|
    ensures forall i :: 0 <= i < |s| ==> r[i] == LowerChar(s[i])
  {
    seq(|s|, i requires 0 <= i < |s| => LowerChar(s[i]))
  }

  /** Lower-casing twice is lower-casing once. */
  lemma ToLowerIdempotent(s: string)
    ensures ToLower(ToLower(s)) == ToLower(s)
  {
    var once := ToLower(s);
    forall i | 0 <= i < |s| ensures ToLower(once)[i] == once[i] {
      assert LowerChar(LowerChar(s[i])) == LowerChar(s[i]);
    }
  }

  // ---------------------------------------------------------------------------
  // getDifficultyColor

  const BeginnerClasses := "text-green-600 bg-green-100"
  const IntermediateClasses := "text-yellow-600 bg-yellow-100"
  const AdvancedClasses := "text-red-600 bg-red-100"
  const OtherClasses := "text-gray-600 bg-gray-100"

  /**
   * `getDifficultyColor`: the three known levels, in any letter case, each
   * get their own pair of classes, and every other string gets the gray pair.
   */
  function DifficultyColor(difficulty: string): (classes: string)
    ensures var level := ToLower(difficulty);
      && (classes == BeginnerClasses <==> level == "beginner")
      && (classes == IntermediateClasses <==> level == "intermediate")
      && (classes == AdvancedClasses <==> level == "advanced")
      && (classes == OtherClasses <==> level != "beginner" && level != "intermediate" && level != "advanced")
  {
    var level := ToLower(difficulty);
    if level == "beginner" then BeginnerClasses
    else if level == "intermediate" then IntermediateClasses
    else if level == "advanced" then AdvancedClasses
    else OtherClasses
  }

  /** The classes depend only on the lower-case form of the difficulty. */
  lemma DifficultyColorIgnoresCase(difficulty: string)
    ensures DifficultyColor(ToLower(difficulty)) == DifficultyColor(difficulty)
  {
    ToLowerIdempotent(difficulty);
  }

  // ---------------------------------------------------------------------------
  // The badge label's class: getDifficultyColor(...).split(' ')[0]

  /** `s.split(' ')[0]`: everything before the first space, or all of s when it has none. */
  function FirstToken(s: string): (token: string)
    ensures token <= s
    ensures ' ' !in token
    ensures |token| < |s| ==> s[|token|] == ' '
    decreases |s|
  {
    if s == [] || s[0] == ' ' then [] else [s[0]] + FirstToken(s[1..])
  }

  /** The first token of `a + " " + b` is a when a holds no space. */
  lemma {:induction false} FirstTokenOfPair(a: string, b: string)
    requires ' ' !in a
    ensures FirstToken(a + " " + b) == a
    decreases |a|
  {
    if a == [] {
      assert (a + " " + b)[0] == ' ';
    } else {
      assert (a + " " + b)[1..] == a[1..] + " " + b;
      FirstTokenOfPair(a[1..], b);
    }
  }

  /** The colours a badge can take. */
  const BadgeTones := {"green", "yellow", "red", "gray"}

  /** A badge in one colour: the text in shade 600 on a background in shade 100. */
  function BadgeClasses(tone: string): string
  {
    "text-" + tone + "-600 bg-" + tone + "-100"
  }

  /** For a colour name without a space, the first class of its badge is its text class. */
  lemma BadgeFirstToken(tone: string)
    requires ' ' !in tone
    ensures FirstToken(BadgeClasses(tone)) == "text-" + tone + "-600"
  {
    var text, background := "text-" + tone + "-600", "bg-" + tone + "-100";
    assert BadgeClasses(tone) == text + " " + background;
    assert ' ' !in text by {
      forall i | 0 <= i < |text| ensures text[i] != ' ' {
        if 5 <= i < 5 + |tone| {
          assert text[i] == tone[i - 5];
        }
      }
    }
    FirstTokenOfPair(text, background);
  }

  predicate KnownClassPair(classes: string)
  {
    classes == BeginnerClasses || classes == IntermediateClasses || classes == AdvancedClasses || classes == OtherClasses
  }

  /** DifficultyColor returns one of its four class pairs. */
  lemma DifficultyColorCases(difficulty: string)
    ensures KnownClassPair(DifficultyColor(difficulty))
  {}

  /** Each of the four class pairs is the badge of one colour. */
  lemma ClassPairsAreBadges(classes: string)
    requires KnownClassPair(classes)
    ensures exists tone :: tone in BadgeTones && classes == BadgeClasses(tone)
                           && FirstToken(classes) == "text-" + tone + "-600"
  {
    if classes == BeginnerClasses {
      TonedBadge(classes, "green");
    } else if classes == IntermediateClasses {
      TonedBadge(classes, "yellow");
    } else if classes == AdvancedClasses {
      TonedBadge(classes, "red");
    } else {
      TonedBadge(classes, "gray");
    }
  }

  lemma TonedBadge(classes: string, tone: string)
    requires tone in BadgeTones && classes == BadgeClasses(tone)
    ensures FirstToken(classes) == "text-" + tone + "-600"
  {
    assert ' ' !in tone;
    BadgeFirstToken(tone);
  }

  /**
   * Every result of DifficultyColor is the badge of one colour, so the
   * label's `split(' ')[0]` is the text class of that same colour.
   */
  lemma DifficultyBadgeTextClass(difficulty: string)
    ensures var classes := DifficultyColor(difficulty);
      exists tone :: tone in BadgeTones && classes == BadgeClasses(tone)
                     && FirstToken(classes) == "text-" + tone + "-600"
  {
    DifficultyColorCases(difficulty);
    ClassPairsAreBadges(DifficultyColor(difficulty));
  }

  // ---------------------------------------------------------------------------
  // getMuscleGroupEmoji

  const FlexedBiceps := "\U{1F4AA}"
  const WeightLifter := "\U{1F3CB}\U{FE0F}"
  const Leg := "\U{1F9B5}"
  const Fire := "\U{1F525}"
  const RedHeart := "\U{2764}\U{FE0F}"
  const Runner := "\U{1F3C3}"

  /** The muscle groups the emoji table names. */
  predicate ListedGroup(group: string)
  {
    group in ["chest", "back", "legs", "shoulders", "arms", "core", "cardio"]
  }

  /**
   * `getMuscleGroupEmoji`: chest, shoulders and arms share the flexed
   * biceps, back, legs, core and cardio have one emoji each, and any other
   * group gets the runner; the letter case of the group does not matter.
   */
  function MuscleGroupEmoji(muscleGroup: string): (emoji: string)
    ensures var group := ToLower(muscleGroup);
      && (emoji == FlexedBiceps <==> group == "chest" || group == "shoulders" || group == "arms")
      && (emoji == WeightLifter <==> group == "back")
      && (emoji == Leg <==> group == "legs")
      && (emoji == Fire <==> group == "core")
      && (emoji == RedHeart <==> group == "cardio")
      && (emoji == Runner <==> !ListedGroup(group))
  {
    var group := ToLower(muscleGroup);
    if group == "chest" then FlexedBiceps
    else if group == "back" then WeightLifter
    else if group == "legs" then Leg
    else if group == "shoulders" then FlexedBiceps
    else if group == "arms" then FlexedBiceps
    else if group == "core" then Fire
    else if group == "cardio" then RedHeart
    else Runner
  }

  /** The emoji depends only on the lower-case form of the muscle group. */
  lemma MuscleGroupEmojiIgnoresCase(muscleGroup: string)
    ensures MuscleGroupEmoji(ToLower(muscleGroup)) == MuscleGroupEmoji(muscleGroup)
  {
    ToLowerIdempotent(muscleGroup);
  }
}
