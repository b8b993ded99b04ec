/**
 * The AI career coach prototype: a five-question onboarding, a chat whose
 * coach replies are picked from a fixed table by keyword priority, and a
 * dashboard of goals and recommendations that the user updates.
 *
 * The React state variables become the fields of `CareerCoach`; each handler
 * becomes a method. The reply that `setTimeout` delivers one to two seconds
 * after sending is the separate step `DeliverReply`. Message ids and
 * timestamps come from the clock and are not modelled.
 */
module CoachPrototype {
  import opened Opt
  import opened Text
  import Seqs
  import Percent

  datatype View = Onboarding | Session | Dashboard | GoalsView
  datatype Role = User | Coach
  datatype Message = Message(role: Role, content: string)

  datatype GoalStatus = Active | Completed | Paused
  datatype Goal = Goal(id: string, title: string, description: string, targetDate: string, status: GoalStatus, progress: int)

  datatype RecommendationKind = Exercise | Resource | Reflection
  datatype Recommendation = Recommendation(id: string, title: string, description: string, kind: RecommendationKind, completed: bool)

  // ---------------------------------------------------------------------------
  // Coach replies
  // ---------------------------------------------------------------------------

  const HelloKey: string := "hello"
  const PromotionKey: string := "promotion"
  const BalanceKey: string := "work-life balance"
  const ChangeKey: string := "career change"
  const DefaultKey: string := "default"

  /** The `mockCoachResponses` table. */
  const MockCoachResponses: map<string, string> := map[
    HelloKey := "Hello! I'm your AI career coach. I'm here to help you navigate your career journey. What would you like to work on today?",
    PromotionKey := "That's exciting! Let's explore your promotion goals. Can you tell me more about the role you're aiming for and what's currently holding you back?",
    BalanceKey := "Work-life balance is crucial for long-term career success. What specific challenges are you facing? Are you working too many hours, or struggling to disconnect?",
    ChangeKey := "Career transitions can be both exciting and daunting. What's driving you to consider a change? And what field or role are you thinking about?",
    DefaultKey := "That's an important topic. Can you tell me more about what's on your mind? I'm here to listen and help you think through this."
  ]

  predicate MentionsPromotion(lower: string) {
    Contains(lower, "promotion") || Contains(lower, "promote")
  }

  predicate MentionsBalance(lower: string) {
    Contains(lower, "balance") || Contains(lower, "work-life")
  }

  predicate MentionsChange(lower: string) {
    Contains(lower, "change") || Contains(lower, "transition")
  }

  predicate MentionsHello(lower: string) {
    Contains(lower, "hello") || Contains(lower, "hi")
  }

  /** The table key `simulateCoachResponse` picks: the first rule, in priority order, that matches. */
  function ReplyKey(userMessage: string): (k: string)
    ensures k in MockCoachResponses
    ensures var m := ToLower(userMessage);
      && (k == PromotionKey <==> MentionsPromotion(m))
      && (k == BalanceKey <==> !MentionsPromotion(m) && MentionsBalance(m))
      && (k == ChangeKey <==> !MentionsPromotion(m) && !MentionsBalance(m) && MentionsChange(m))
      && (k == HelloKey <==> !MentionsPromotion(m) && !MentionsBalance(m) && !MentionsChange(m) && MentionsHello(m))
      && (k == DefaultKey <==> !MentionsPromotion(m) && !MentionsBalance(m) && !MentionsChange(m) && !MentionsHello(m))
  {
    var lower := ToLower(userMessage);
    if MentionsPromotion(lower) then PromotionKey
    else if MentionsBalance(lower) then BalanceKey
    else if MentionsChange(lower) then ChangeKey
    else if MentionsHello(lower) then HelloKey
    else DefaultKey
  }

  /** `simulateCoachResponse(userMessage)`: always one of the five table replies. */
  function SimulateCoachResponse(userMessage: string): (r: string)
    ensures r in MockCoachResponses.Values
    ensures r == MockCoachResponses[ReplyKey(userMessage)]
  {
    MockCoachResponses[ReplyKey(userMessage)]
  }

  lemma {:induction false} ToLowerConcat(a: string, b: string)
    ensures ToLower(a + b) == ToLower(a) + ToLower(b)
  {
    if a == [] {
      assert a + b == b;
    } else {
      assert (a + b)[1..] == a[1..] + b;
      ToLowerConcat(a[1..], b);
    }
  }

  /** A keyword without upper-case letters survives lower-casing of any message around it. */
  lemma KeywordSurvivesLowering(before: string, keyword: string, after: string)
    requires forall k :: 0 <= k < |keyword| ==> !('A' <= keyword[k] <= 'Z')
    ensures Contains(ToLower(before + keyword + after), keyword)
  {
    ToLowerConcat(before + keyword, after);
    ToLowerConcat(before, keyword);
    ToLowerNoUpper(keyword);
    ContainsInfix(ToLower(before), keyword, ToLower(after));
  }

  /** Lower-casing a message that contains `promotion` keeps that word in it. */
  lemma MentionsPromotionInfix(before: string, after: string)
    ensures MentionsPromotion(ToLower(before + "promotion" + after))
  {
    KeywordSurvivesLowering(before, "promotion", after);
  }

  /** A message that mentions a promotion gets the promotion reply, whatever else it says. */
  lemma PromotionHasPriority(before: string, after: string)
    ensures ReplyKey(before + "promotion" + after) == PromotionKey
  {
    MentionsPromotionInfix(before, after);
  }

  /** A pattern longer than the text cannot occur in it. */
  lemma ContainsNeedsRoom(s: string, p: string)
    requires |s| < |p|
    ensures !Contains(s, p)
  {
  }

  /** Keywords match as substrings: `this` contains `hi` and so gets the greeting. */
  lemma SubstringGreeting()
    ensures ReplyKey("this") == HelloKey
  {
    ToLowerNoUpper("this");
    assert OccursAt("this", "hi", 1);
    ContainsNeedsRoom("this", "promotion");
    ContainsNeedsRoom("this", "promote");
    ContainsNeedsRoom("this", "balance");
    ContainsNeedsRoom("this", "work-life");
    ContainsNeedsRoom("this", "change");
    ContainsNeedsRoom("this", "transition");
  }

  /** Upper-case keywords match too, because the message is lower-cased first. */
  lemma CaseInsensitive()
    ensures ReplyKey("HI") == HelloKey
  {
    assert ToLower("HI") == "hi";
    assert OccursAt("hi", "hi", 0);
    ContainsNeedsRoom("hi", "promotion");
    ContainsNeedsRoom("hi", "promote");
    ContainsNeedsRoom("hi", "balance");
    ContainsNeedsRoom("hi", "work-life");
    ContainsNeedsRoom("hi", "change");
    ContainsNeedsRoom("hi", "transition");
  }

  // ---------------------------------------------------------------------------
  // Recommendations: toggleRecommendation
  // ---------------------------------------------------------------------------

  /** The callback of `prev.map` in `toggleRecommendation(id)`. */
  function ToggleOne(rec: Recommendation, id: string): Recommendation {
    if rec.id == id then rec.(completed := !rec.completed) else rec
  }

  /** The list after `toggleRecommendation(id)`: `prev.map` of `ToggleOne`. */
  function Toggled(recs: seq<Recommendation>, id: string): seq<Recommendation> {
    Seqs.Map(recs, rec => ToggleOne(rec, id))
  }

  /** Toggling keeps the length, flips `completed` on the entries with that id and leaves every other entry and field alone. */
  lemma ToggledAt(recs: seq<Recommendation>, id: string, k: int)
    requires 0 <= k < |recs|
    ensures |Toggled(recs, id)| == |recs|
    ensures var t := Toggled(recs, id)[k];
      && t.id == recs[k].id && t.title == recs[k].title && t.description == recs[k].description && t.kind == recs[k].kind
      && (t.completed == if recs[k].id == id then !recs[k].completed else recs[k].completed)
  {
  }

  /** Toggling the same id twice restores the list. */
  lemma ToggleTwice(recs: seq<Recommendation>, id: string)
    ensures Toggled(Toggled(recs, id), id) == recs
  {
    var once := Toggled(recs, id);
    var twice := Toggled(once, id);
    forall k | 0 <= k < |recs|
      ensures twice[k] == recs[k]
    {
      ToggledAt(recs, id, k);
      ToggledAt(once, id, k);
    }
  }

  // ---------------------------------------------------------------------------
  // Goals: updateGoalProgress
  // ---------------------------------------------------------------------------

  /** The callback of `prev.map` in `updateGoalProgress(id, progress)`. */
  function SetProgress(g: Goal, id: string, p: int): Goal {
    if g.id == id then g.(progress := Percent.Clamp(p)) else g
  }

  /** The list after `updateGoalProgress(id, p)`: `prev.map` of `SetProgress`. */
  function WithProgress(goals: seq<Goal>, id: string, p: int): seq<Goal> {
    Seqs.Map(goals, g => SetProgress(g, id, p))
  }

  /** Every goal's progress is a percentage. */
  predicate ProgressInRange(goals: seq<Goal>) {
    forall i :: 0 <= i < |goals| ==> Percent.Lo <= goals[i].progress <= Percent.Hi
  }

  /** The update keeps the length, clamps the progress of the goals with that id and leaves every other goal and field alone. */
  lemma WithProgressAt(goals: seq<Goal>, id: string, p: int, k: int)
    requires 0 <= k < |goals|
    ensures |WithProgress(goals, id, p)| == |goals|
    ensures var g := WithProgress(goals, id, p)[k];
      && g.id == goals[k].id && g.title == goals[k].title && g.description == goals[k].description
      && g.targetDate == goals[k].targetDate && g.status == goals[k].status
      && (g.progress == if goals[k].id == id then Percent.Clamp(p) else goals[k].progress)
  {
  }

  /** Progress stays a percentage under any update, in particular under the -10% and +10% buttons. */
  lemma WithProgressKeepsRange(goals: seq<Goal>, id: string, p: int)
    requires ProgressInRange(goals)
    ensures ProgressInRange(WithProgress(goals, id, p))
  {
    var r := WithProgress(goals, id, p);
    forall k | 0 <= k < |r|
      ensures Percent.Lo <= r[k].progress <= Percent.Hi
    {
      WithProgressAt(goals, id, p, k);
    }
  }

  // ---------------------------------------------------------------------------
  // Initial state
  // ---------------------------------------------------------------------------

  /** The keys of the five onboarding questions, in the order they are asked. */
  const OnboardingKeys: seq<string> := ["name", "role", "experience", "goals", "challenges"]
  const QuestionCount: nat := |OnboardingKeys|

  const OnboardingDone: string := "Perfect! I've got a good understanding of where you are. Let's start working on your career goals. You can start a coaching session anytime, or check out your dashboard to see your goals and recommendations."

  const InitialGoals: seq<Goal> := [
    Goal("1", "Get promoted to Senior Engineer", "Advance to senior level within the next 6 months", "2025-06-01", Active, 45),
    Goal("2", "Improve work-life balance", "Establish boundaries and reduce work hours to 40/week", "2025-03-01", Active, 30)
  ]

  const InitialRecommendations: seq<Recommendation> := [
    Recommendation("1", "Reflect on your leadership moments", "Write about 3 times you demonstrated leadership, even in small ways", Reflection, false),
    Recommendation("2", "Practice the STAR method", "Prepare 5 STAR stories for your promotion conversation", Exercise, false),
    Recommendation("3", "Read: \"Crucial Conversations\"", "Chapter 3 on mastering your stories", Resource, true)
  ]

  // ---------------------------------------------------------------------------
  // The component state and its handlers
  // ---------------------------------------------------------------------------

  class CareerCoach {
    var view: View
    var onboardingStep: nat
    var messages: seq<Message>
    var inputValue: string
    var isTyping: bool
    var goals: array<Goal>
    var recommendations: array<Recommendation>

    /** The step indexes a question and every progress is a percentage. */
    ghost predicate Valid()
      reads this, goals
    {
      onboardingStep < QuestionCount && ProgressInRange(goals[..])
    }

    constructor ()
      ensures Valid()
      ensures view == Onboarding && onboardingStep == 0 && messages == [] && inputValue == "" && !isTyping
      ensures fresh(goals) && goals[..] == InitialGoals
      ensures fresh(recommendations) && recommendations[..] == InitialRecommendations
    {
      view := Onboarding;
      onboardingStep := 0;
      messages := [];
      inputValue := "";
      isTyping := false;
      goals := new Goal[|InitialGoals|](i requires 0 <= i < |InitialGoals| => InitialGoals[i]);
      recommendations := new Recommendation[|InitialRecommendations|](i requires 0 <= i < |InitialRecommendations| => InitialRecommendations[i]);
    }

    /** `addMessage(role, content)`: one message at the end, the earlier ones untouched. */
    method AddMessage(role: Role, content: string)
      modifies this`messages
      ensures messages == old(messages) + [Message(role, content)]
    {
      messages := messages + [Message(role, content)];
    }

    /** `handleOnboardingSubmit()`: the next question, or the dashboard with a welcome message after the last one. */
    method OnboardingSubmit()
      requires Valid()
      modifies this`onboardingStep, this`view, this`messages
      ensures Valid()
      ensures old(onboardingStep) < QuestionCount - 1 ==>
        onboardingStep == old(onboardingStep) + 1 && view == old(view) && messages == old(messages)
      ensures old(onboardingStep) == QuestionCount - 1 ==>
        onboardingStep == old(onboardingStep) && view == Dashboard && messages == old(messages) + [Message(Coach, OnboardingDone)]
    {
      if onboardingStep < QuestionCount - 1 {
        onboardingStep := onboardingStep + 1;
      } else {
        view := Dashboard;
        AddMessage(Coach, OnboardingDone);
      }
    }

    /** The input field's `onChange`. */
    method EditInput(text: string)
      modifies this`inputValue
      ensures inputValue == text
    {
      inputValue := text;
    }

    /**
     * The synchronous part of `handleSendMessage()`. A blank input changes
     * nothing; otherwise the trimmed input is posted as the user's message,
     * the input is cleared and the coach starts typing. `pending` is the
     * message the scheduled reply will answer.
     */
    method SendMessage() returns (pending: Option<string>)
      modifies this`messages, this`inputValue, this`isTyping
      ensures Trim(old(inputValue)) == "" ==>
        pending == None && messages == old(messages) && inputValue == old(inputValue) && isTyping == old(isTyping)
      ensures Trim(old(inputValue)) != "" ==>
        pending == Some(Trim(old(inputValue))) && messages == old(messages) + [Message(User, Trim(old(inputValue)))]
        && inputValue == "" && isTyping
    {
      if Trim(inputValue) == "" {
        return None;
      }
      var userMessage := Trim(inputValue);
      AddMessage(User, userMessage);
      inputValue := "";
      isTyping := true;
      pending := Some(userMessage);
    }

    /** The `setTimeout` callback: the coach's reply to `userMessage` is posted and typing stops. */
    method DeliverReply(userMessage: string)
      modifies this`messages, this`isTyping
      ensures messages == old(messages) + [Message(Coach, SimulateCoachResponse(userMessage))]
      ensures !isTyping
    {
      var coachResponse := SimulateCoachResponse(userMessage);
      AddMessage(Coach, coachResponse);
      isTyping := false;
    }

    /** `handleKeyPress`: Enter without Shift submits the onboarding answer or sends the message. */
    method PressEnter(shift: bool) returns (pending: Option<string>)
      requires Valid()
      modifies this`onboardingStep, this`view, this`messages, this`inputValue, this`isTyping
      ensures Valid()
      ensures shift ==> unchanged(this) && pending == None
      ensures !shift && old(view) == Onboarding ==>
        && pending == None && inputValue == old(inputValue) && isTyping == old(isTyping)
        && (old(onboardingStep) < QuestionCount - 1 ==>
              onboardingStep == old(onboardingStep) + 1 && view == old(view) && messages == old(messages))
        && (old(onboardingStep) == QuestionCount - 1 ==>
              onboardingStep == old(onboardingStep) && view == Dashboard && messages == old(messages) + [Message(Coach, OnboardingDone)])
      ensures !shift && old(view) != Onboarding ==>
        && view == old(view) && onboardingStep == old(onboardingStep)
        && (Trim(old(inputValue)) == "" ==>
              pending == None && messages == old(messages) && inputValue == old(inputValue) && isTyping == old(isTyping))
        && (Trim(old(inputValue)) != "" ==>
              pending == Some(Trim(old(inputValue))) && messages == old(messages) + [Message(User, Trim(old(inputValue)))]
              && inputValue == "" && isTyping)
    {
      pending := None;
      if !shift {
        if view == Onboarding {
          OnboardingSubmit();
        } else {
          pending := SendMessage();
        }
      }
    }

    /** `toggleRecommendation(id)`, done in place. */
    method ToggleRecommendation(id: string)
      modifies recommendations
      ensures recommendations[..] == Toggled(old(recommendations[..]), id)
    {
      ghost var was := recommendations[..];
      var i := 0;
      while i < recommendations.Length
        invariant 0 <= i <= recommendations.Length
        invariant forall k :: 0 <= k < i ==> recommendations[k] == ToggleOne(was[k], id)
        invariant forall k :: i <= k < recommendations.Length ==> recommendations[k] == was[k]
      {
        var rec := recommendations[i];
        if rec.id == id {
          recommendations[i] := rec.(completed := !rec.completed);
        }
        i := i + 1;
      }
      if |was| > 0 {
        ToggledAt(was, id, 0);
      }
      forall k | 0 <= k < |was|
        ensures recommendations[k] == Toggled(was, id)[k]
      {
        ToggledAt(was, id, k);
      }
    }

    /** `updateGoalProgress(id, progress)`, done in place. */
    method UpdateGoalProgress(id: string, progress: int)
      requires Valid()
      modifies goals
      ensures Valid()
      ensures goals[..] == WithProgress(old(goals[..]), id, progress)
    {
      ghost var was := goals[..];
      var i := 0;
      while i < goals.Length
        invariant 0 <= i <= goals.Length
        invariant forall k :: 0 <= k < i ==> goals[k] == SetProgress(was[k], id, progress)
        invariant forall k :: i <= k < goals.Length ==> goals[k] == was[k]
      {
        var goal := goals[i];
        if goal.id == id {
          goals[i] := goal.(progress := Percent.Clamp(progress));
        }
        i := i + 1;
      }
      if |was| > 0 {
        WithProgressAt(was, id, progress, 0);
      }
      forall k | 0 <= k < |was|
        ensures goals[k] == WithProgress(was, id, progress)[k]
      {
        WithProgressAt(was, id, progress, k);
      }
      WithProgressKeepsRange(was, id, progress);
    }
  }

  /** Five submissions from the start reach the dashboard with exactly the welcome message. */
  method FinishOnboarding() returns (view: View, step: nat, messages: seq<Message>)
    ensures view == Dashboard && step == QuestionCount - 1
    ensures messages == [Message(Coach, OnboardingDone)]
  {
    var c := new CareerCoach();
    c.OnboardingSubmit();
    c.OnboardingSubmit();
    c.OnboardingSubmit();
    c.OnboardingSubmit();
    assert c.view == Onboarding && c.onboardingStep == 4;
    c.OnboardingSubmit();
    view, step, messages := c.view, c.onboardingStep, c.messages;
  }
}
