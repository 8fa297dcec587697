/** The personal plan on the dashboard (daily calories, macronutrient grams and
    a workout programme derived from the profile) and the choice of exercise
    guide. Arithmetic is exact on `real`. */
module Plan {
  import opened Records

  /** The profile fields the plan reads. `age` is `parseInt(user.age)` and
      `activity` the activity factor, `None` when the profile has none. */
  datatype Profile = Profile(
    age: Option<int>,
    gender: string,
    goal: string,
    activity: Option<real>,
    experience: string)

  /** Fractions of the calories given to protein, carbohydrate and fat. */
  datatype Split = Split(protein: real, carbs: real, fat: real)

  datatype Plan = Plan(
    calories: int,
    proteinGrams: int,
    carbGrams: int,
    fatGrams: int,
    workoutTitle: string,
    workoutDesc: string)

  /** No height is recorded; every plan assumes 175 cm. */
  const HeightCm: real := 175.0

  /** `parseFloat(weight) || 70`: an unreadable or zero weight counts as 70 kg. */
  function WeightOrDefault(parsed: Option<real>): (w: real)
    ensures parsed.Some? && parsed.value != 0.0 ==> w == parsed.value
    ensures parsed.None? || parsed.value == 0.0 ==> w == 70.0
  {
    if parsed.Some? && parsed.value != 0.0 then parsed.value else 70.0
  }

  /** `parseInt(age) || 25`: an unreadable or zero age counts as 25. */
  function AgeOrDefault(parsed: Option<int>): (a: int)
    ensures parsed.Some? && parsed.value != 0 ==> a == parsed.value
    ensures parsed.None? || parsed.value == 0 ==> a == 25
  {
    if parsed.Some? && parsed.value != 0 then parsed.value else 25
  }

  /** `Math.round`: the nearest integer, halves rounded up. */
  function Round(x: real): (n: int)
    ensures x - 0.5 < n as real <= x + 0.5
  {
    (x + 0.5).Floor
  }

  /** Basal metabolic rate by the Mifflin-St Jeor equation; every gender other
      than "Male" takes the female constant. */
  function Bmr(weight: real, age: int, gender: string): (b: real)
    ensures b == 1673.75 + 10.0 * (weight - 70.0) - 5.0 * (age - 25) as real
                 - (if gender == "Male" then 0.0 else 166.0)
  {
    10.0 * weight + 6.25 * HeightCm - 5.0 * age as real + (if gender == "Male" then 5.0 else -161.0)
  }

  /** Total daily energy expenditure: the BMR scaled by the activity factor, rounded. */
  function Tdee(bmr: real, activity: real): (t: int)
    ensures bmr * activity - 0.5 < t as real <= bmr * activity + 0.5
  {
    Round(bmr * activity)
  }

  /** A 70 kg, 25-year-old man at activity 1.55 needs 1673.75 kcal at rest
      and 2594 kcal a day. */
  lemma ReferenceMan()
    ensures Bmr(70.0, 25, "Male") == 1673.75
    ensures Tdee(Bmr(70.0, 25, "Male"), 1.55) == 2594
  {
  }

  /** The calorie change a goal asks for. */
  function CalorieOffset(goal: string): (d: int)
    ensures d == -500 <==> goal == "loss"
    ensures d == 300 <==> goal == "gain"
    ensures d == 0 <==> goal != "loss" && goal != "gain"
  {
    if goal == "loss" then -500 else if goal == "gain" then 300 else 0
  }

  /** The macronutrient split a goal asks for; any goal not listed gets the
      maintenance split. */
  function GoalSplit(goal: string): (s: Split)
    ensures s.protein + s.carbs + s.fat == 1.0
    ensures 0.0 < s.protein && 0.0 < s.carbs && 0.0 < s.fat
  {
    if goal == "loss" then Split(0.4, 0.3, 0.3)
    else if goal == "gain" then Split(0.3, 0.45, 0.25)
    else if goal == "endurance" then Split(0.25, 0.55, 0.2)
    else Split(0.3, 0.4, 0.3)
  }

  /** Weight loss is the only goal that favours protein over carbohydrate, and
      every other goal gives carbohydrate the largest share. */
  lemma SplitEmphasis(goal: string)
    ensures GoalSplit(goal).protein > GoalSplit(goal).carbs <==> goal == "loss"
    ensures goal != "loss" ==>
      GoalSplit(goal).carbs > GoalSplit(goal).protein && GoalSplit(goal).carbs > GoalSplit(goal).fat
  {
  }

  /** Energy per gram (Atwater factors). */
  const KcalPerGramProtein: real := 4.0
  const KcalPerGramCarbs: real := 4.0
  const KcalPerGramFat: real := 9.0

  /** Grams of one macronutrient: its share of the calories over its energy per gram, rounded. */
  function Grams(calories: int, share: real, kcalPerGram: real): (g: int)
    requires kcalPerGram > 0.0
    ensures (calories as real * share / kcalPerGram) - 0.5 < g as real <= (calories as real * share / kcalPerGram) + 0.5
  {
    Round(calories as real * share / kcalPerGram)
  }

  /** The workout programme for an experience level and goal: endurance always
      gets the hybrid programme. */
  function Programme(goal: string, experience: string): (p: (string, string))
    ensures goal == "endurance" ==> p == ("Hybrid Athlete", "3x Strength, 3x Cardio/Run per week.")
    ensures goal != "endurance" && experience == "Advanced" ==>
      p == ("5-Day Split", "Push/Pull/Legs high volume split.")
    ensures goal != "endurance" && experience == "Intermediate" ==>
      p == ("Upper/Lower Split", "4 days/week. Balanced intensity.")
    ensures (goal != "endurance" && experience != "Advanced" && experience != "Intermediate") ==>
      p == ("Standard Full Body", "3 days/week. Focus on compound movements.")
  {
    var byLevel :=
      if experience == "Advanced" then ("5-Day Split", "Push/Pull/Legs high volume split.")
      else if experience == "Intermediate" then ("Upper/Lower Split", "4 days/week. Balanced intensity.")
      else ("Standard Full Body", "3 days/week. Focus on compound movements.");
    if goal == "endurance" then ("Hybrid Athlete", "3x Strength, 3x Cardio/Run per week.")
    else byLevel
  }

  /** `renderPersonalPlan`: nothing without a profile or an activity factor;
      otherwise the calorie target and its split into grams. `weight` is
      `parseFloat` of the current weight. */
  function PersonalPlan(user: Option<Profile>, weight: Option<real>): (r: Option<Plan>)
    ensures r.Some? <==> user.Some? && user.value.activity.Some?
    ensures r.Some? ==>
      var u := user.value;
      var tdee := Tdee(Bmr(WeightOrDefault(weight), AgeOrDefault(u.age), u.gender), u.activity.value);
      && r.value.calories == tdee + CalorieOffset(u.goal)
      && r.value.proteinGrams == Grams(r.value.calories, GoalSplit(u.goal).protein, KcalPerGramProtein)
      && r.value.carbGrams == Grams(r.value.calories, GoalSplit(u.goal).carbs, KcalPerGramCarbs)
      && r.value.fatGrams == Grams(r.value.calories, GoalSplit(u.goal).fat, KcalPerGramFat)
      && r.value.workoutTitle == Programme(u.goal, u.experience).0
      && r.value.workoutDesc == Programme(u.goal, u.experience).1
  {
    if user.None? || user.value.activity.None? then None
    else
      var u := user.value;
      var bmr := Bmr(WeightOrDefault(weight), AgeOrDefault(u.age), u.gender);
      var target := Tdee(bmr, u.activity.value) + CalorieOffset(u.goal);
      var split := GoalSplit(u.goal);
      var programme := Programme(u.goal, u.experience);
      Some(Plan(target,
                Grams(target, split.protein, KcalPerGramProtein),
                Grams(target, split.carbs, KcalPerGramCarbs),
                Grams(target, split.fat, KcalPerGramFat),
                programme.0, programme.1))
  }

  /** The grams of a plan give back its calorie target to within 8.5 kcal:
      each rounding moves at most half a gram. */
  lemma PlanEnergyMatchesTarget(user: Option<Profile>, weight: Option<real>)
    requires user.Some? && user.value.activity.Some?
    ensures var p := PersonalPlan(user, weight).value;
      var energy := KcalPerGramProtein * p.proteinGrams as real + KcalPerGramCarbs * p.carbGrams as real
                    + KcalPerGramFat * p.fatGrams as real;
      p.calories as real - 8.5 <= energy <= p.calories as real + 8.5
  {
    var p := PersonalPlan(user, weight).value;
    var split := GoalSplit(user.value.goal);
    var c := p.calories as real;
    assert c * split.protein + c * split.carbs + c * split.fat == c by {
      assert c * (split.protein + split.carbs + split.fat) == c;
    }
  }

  /** The strategies the exercise guide has. */
  const StrategyKeys: set<string> := {"loss", "gain", "endurance", "maintain"}

  /** The guide's strategy for a goal: the goal itself when the guide has a
      strategy by that name, the maintenance strategy otherwise. */
  function StrategyKey(goal: string): (key: string)
    ensures key in StrategyKeys
    ensures goal in StrategyKeys ==> key == goal
    ensures goal !in StrategyKeys ==> key == "maintain"
  {
    if goal == "loss" then "loss"
    else if goal == "gain" then "gain"
    else if goal == "endurance" then "endurance"
    else "maintain"
  }
}
