/** The production planning page (app/planning/page.tsx): the grouping of the
    loaded plans by day, what each plan card shows, and the form that adds a
    plan. */
module Planning {
  import opened Wrappers
  import opened Database
  import opened Durations
  import opened Inputs

  // ---------------------------------------------------------------------------
  // groupPlansByDate

  /** The distinct planned dates, in the order the plans first use them. */
  function DatesInOrder(plans: seq<ScheduledPlan>): seq<string> {
    if plans == [] then []
    else
      var init := DatesInOrder(plans[..|plans| - 1]);
      var d := plans[|plans| - 1].plan.planned_date;
      if d in init then init else init + [d]
  }

  /** The plans of one day, in their order. */
  function OnDate(plans: seq<ScheduledPlan>, date: string): seq<ScheduledPlan> {
    if plans == [] then []
    else
      var init := OnDate(plans[..|plans| - 1], date);
      var p := plans[|plans| - 1];
      if p.plan.planned_date == date then init + [p] else init
  }

  /** `groupPlansByDate`: a dictionary from each date to its plans, built by
      pushing every plan onto its date's list (created when first needed), and
      the dictionary's key order. */
  method GroupPlansByDate(plans: seq<ScheduledPlan>) returns (dates: seq<string>, grouped: map<string, seq<ScheduledPlan>>)
    ensures dates == DatesInOrder(plans)
    ensures forall d :: d in grouped <==> d in dates
    ensures forall d :: d in grouped ==> grouped[d] == OnDate(plans, d)
  {
    dates, grouped := [], map[];
    var i := 0;
    while i < |plans|
      invariant 0 <= i <= |plans|
      invariant dates == DatesInOrder(plans[..i])
      invariant forall d :: d in grouped <==> d in dates
      invariant forall d :: d in grouped ==> grouped[d] == OnDate(plans[..i], d)
    {
      var plan := plans[i];
      assert plans[..i + 1][..i] == plans[..i] && plans[..i + 1][i] == plan;
      if plan.plan.planned_date !in grouped {
        grouped := grouped[plan.plan.planned_date := []];
        dates := dates + [plan.plan.planned_date];
        OnDateAbsent(plans[..i], plan.plan.planned_date);
      }
      grouped := grouped[plan.plan.planned_date := grouped[plan.plan.planned_date] + [plan]];
      i := i + 1;
    }
    assert plans[..|plans|] == plans;
  }

  /** A date is listed exactly when some plan has it. */
  lemma {:induction false} DatesInOrderMembers(plans: seq<ScheduledPlan>)
    ensures forall d :: d in DatesInOrder(plans) <==> exists k :: 0 <= k < |plans| && plans[k].plan.planned_date == d
  {
    if plans != [] {
      var init := plans[..|plans| - 1];
      DatesInOrderMembers(init);
      forall d | exists k :: 0 <= k < |plans| && plans[k].plan.planned_date == d
        ensures d in DatesInOrder(plans)
      {
        var k :| 0 <= k < |plans| && plans[k].plan.planned_date == d;
        if k < |init| {
          assert init[k] == plans[k];
        }
      }
      forall d | d in DatesInOrder(plans)
        ensures exists k :: 0 <= k < |plans| && plans[k].plan.planned_date == d
      {
        if d in DatesInOrder(init) {
          var k :| 0 <= k < |init| && init[k].plan.planned_date == d;
          assert plans[k] == init[k];
        } else {
          assert plans[|plans| - 1].plan.planned_date == d;
        }
      }
    }
  }

  lemma {:induction false} DatesInOrderDistinct(plans: seq<ScheduledPlan>)
    ensures forall i, j :: 0 <= i < j < |DatesInOrder(plans)| ==> DatesInOrder(plans)[i] != DatesInOrder(plans)[j]
  {
    if plans != [] {
      DatesInOrderDistinct(plans[..|plans| - 1]);
    }
  }

  /** A day's group holds exactly the plans of that day. */
  lemma {:induction false} OnDateMembers(plans: seq<ScheduledPlan>, date: string)
    ensures forall p :: p in OnDate(plans, date) <==> p in plans && p.plan.planned_date == date
  {
    if plans != [] {
      var init := plans[..|plans| - 1];
      OnDateMembers(init, date);
      assert plans == init + [plans[|plans| - 1]];
    }
  }

  lemma {:induction false} OnDateAbsent(plans: seq<ScheduledPlan>, date: string)
    requires date !in DatesInOrder(plans)
    ensures OnDate(plans, date) == []
  {
    if plans != [] {
      var init := plans[..|plans| - 1];
      OnDateAbsent(init, date);
    }
  }

  /** The sizes of the groups of the dates `ds`. */
  function GroupSizes(plans: seq<ScheduledPlan>, ds: seq<string>): nat {
    if ds == [] then 0 else GroupSizes(plans, ds[..|ds| - 1]) + |OnDate(plans, ds[|ds| - 1])|
  }

  lemma {:induction false} GroupSizesStep(plans: seq<ScheduledPlan>, p: ScheduledPlan, ds: seq<string>)
    requires forall i, j :: 0 <= i < j < |ds| ==> ds[i] != ds[j]
    ensures GroupSizes(plans + [p], ds) == GroupSizes(plans, ds) + (if p.plan.planned_date in ds then 1 else 0)
  {
    var plans' := plans + [p];
    assert plans'[..|plans'| - 1] == plans;
    if ds != [] {
      var init := ds[..|ds| - 1];
      GroupSizesStep(plans, p, init);
      assert ds == init + [ds[|ds| - 1]];
      assert p.plan.planned_date == ds[|ds| - 1] ==> p.plan.planned_date !in init;
    }
  }

  /** The groups partition the plans: their sizes add up to the number of plans. */
  lemma {:induction false} GroupsPartition(plans: seq<ScheduledPlan>)
    ensures GroupSizes(plans, DatesInOrder(plans)) == |plans|
  {
    if plans != [] {
      var init, p := plans[..|plans| - 1], plans[|plans| - 1];
      assert init + [p] == plans;
      GroupsPartition(init);
      DatesInOrderDistinct(init);
      GroupSizesStep(init, p, DatesInOrder(init));
      var d := p.plan.planned_date;
      if d !in DatesInOrder(init) {
        OnDateAbsent(init, d);
        var ds := DatesInOrder(plans);
        assert ds == DatesInOrder(init) + [d];
        assert ds[..|ds| - 1] == DatesInOrder(init);
        assert OnDate(plans, d) == [p];
      }
    }
  }

  /** Every plan sits in the group of its own date and in no other. */
  lemma InExactlyOneGroup(plans: seq<ScheduledPlan>, p: ScheduledPlan, d: string)
    requires p in plans
    ensures p.plan.planned_date in DatesInOrder(plans)
    ensures p in OnDate(plans, d) <==> d == p.plan.planned_date
  {
    DatesInOrderMembers(plans);
    OnDateMembers(plans, d);
    var k :| 0 <= k < |plans| && plans[k] == p;
  }

  /** The empty state is shown exactly when no plan is loaded. */
  lemma NoGroupsIffNoPlans(plans: seq<ScheduledPlan>)
    ensures DatesInOrder(plans) == [] <==> plans == []
  {
    DatesInOrderMembers(plans);
    if plans != [] {
      assert plans[0].plan.planned_date in DatesInOrder(plans);
    }
  }

  // ---------------------------------------------------------------------------
  // A plan card

  /** What a plan card shows besides names and controls. */
  datatype Card = Card(
    endTime: string,           // calculateEndTime(plan.start_time, totalTime)
    duration: string,          // formatTime(totalTime)
    scaledYield: Option<real>, // shown only when the multiplier is not 1
    notes: Option<string>,     // shown only when present and non-empty
    chips: seq<Chip>)

  function TotalTime(r: Recipe): int {
    r.prep_time_minutes + r.rest_time_minutes + r.baking_time_minutes
  }

  function PlanCard(p: ScheduledPlan): Card {
    var r := p.recipes;
    var total := TotalTime(r);
    Card(
      CalculateEndTime(p.plan.start_time, total),
      FormatTime(total),
      if p.plan.quantity_multiplier != 1.0 then Some(r.yield_quantity as real * p.plan.quantity_multiplier) else None,
      if p.plan.notes.Some? && p.plan.notes.value != "" then p.plan.notes else None,
      Chips(r.prep_time_minutes, r.rest_time_minutes, r.baking_time_minutes))
  }

  function ChipMinutes(cs: seq<Chip>): int {
    if cs == [] then 0 else ChipMinutes(cs[..|cs| - 1]) + cs[|cs| - 1].minutes
  }

  lemma {:induction false} ChipMinutesAppend(a: seq<Chip>, b: seq<Chip>)
    ensures ChipMinutes(a + b) == ChipMinutes(a) + ChipMinutes(b)
  {
    if b == [] {
      assert a + b == a;
    } else {
      assert (a + b)[..|a + b| - 1] == a + b[..|b| - 1];
      assert (a + b)[|a + b| - 1] == b[|b| - 1];
      ChipMinutesAppend(a, b[..|b| - 1]);
    }
  }

  /** The card's duration reads back as the recipe's total time. */
  lemma PlanCardDuration(p: ScheduledPlan)
    ensures ReadDuration(PlanCard(p).duration) == Some(TotalTime(p.recipes))
  {
    FormatTimeRoundTrip(TotalTime(p.recipes));
  }

  /** For non-negative durations, the total time is what the chips add up to. */
  lemma PlanCardChips(p: ScheduledPlan)
    requires p.recipes.prep_time_minutes >= 0 && p.recipes.rest_time_minutes >= 0 && p.recipes.baking_time_minutes >= 0
    ensures ChipMinutes(PlanCard(p).chips) == TotalTime(p.recipes)
  {
    var r := p.recipes;
    var a, b, c := ChipIf(Prep, r.prep_time_minutes), ChipIf(Rest, r.rest_time_minutes), ChipIf(Baking, r.baking_time_minutes);
    assert PlanCard(p).chips == a + b + c;
    ChipMinutesAppend(a + b, c);
    ChipMinutesAppend(a, b);
    assert ChipMinutes([]) == 0;
    assert forall x: Chip :: ChipMinutes([x]) == x.minutes by {
      forall x: Chip ensures ChipMinutes([x]) == x.minutes {
        assert [x][..0] == [];
      }
    }
  }

  /** The end time is the start plus the total time, modulo 24 hours. */
  lemma PlanCardEndTime(p: ScheduledPlan)
    requires StartMinutes(p.plan.start_time).Some?
    requires StartMinutes(p.plan.start_time).value + TotalTime(p.recipes) >= 0
    ensures ReadClock(PlanCard(p).endTime) == Some((StartMinutes(p.plan.start_time).value + TotalTime(p.recipes)) % 1440)
  {
    EndTimeIsClock(p.plan.start_time, TotalTime(p.recipes));
  }

  /** The scaled yield appears exactly when the multiplier is not 1, and the
      notes exactly when they are present and non-empty. */
  lemma PlanCardOptional(p: ScheduledPlan)
    ensures PlanCard(p).scaledYield.Some? <==> p.plan.quantity_multiplier != 1.0
    ensures PlanCard(p).scaledYield.Some? ==>
              PlanCard(p).scaledYield.value == p.recipes.yield_quantity as real * p.plan.quantity_multiplier
    ensures PlanCard(p).notes.Some? <==> p.plan.notes.Some? && p.plan.notes.value != ""
    ensures PlanCard(p).notes.Some? ==> PlanCard(p).notes == p.plan.notes
  {
  }

  // ---------------------------------------------------------------------------
  // The add-plan form

  /** The row `handleAddPlan` inserts. */
  datatype PlanInsert = PlanInsert(
    user_id: Id,
    recipe_id: Id,
    planned_date: string,
    start_time: string,
    quantity_multiplier: real,
    status: Status,
    notes: Option<string>)

  class PlanForm {
    var selectedRecipe: Id
    var plannedDate: string
    var startTime: string
    var quantityMultiplier: real
    var notes: string
    var showAddForm: bool

    /** The initial form; `today` is the clock's date, given here. */
    constructor (today: string)
      ensures selectedRecipe == "" && plannedDate == today && startTime == "06:00"
      ensures quantityMultiplier == 1.0 && notes == "" && !showAddForm
    {
      selectedRecipe, plannedDate, startTime := "", today, "06:00";
      quantityMultiplier, notes, showAddForm := 1.0, "", false;
    }

    /** The multiplier input: `parseFloat(v) || 1`. */
    method SetMultiplier(parsed: Option<real>)
      modifies this`quantityMultiplier
      ensures quantityMultiplier == RealOr(parsed, 1.0)
      ensures quantityMultiplier != 0.0
    {
      quantityMultiplier := RealOr(parsed, 1.0);
    }

    /** The row built from the form for the signed-in user. */
    function Row(userId: Id): (row: PlanInsert)
      reads this
      ensures row.status == Planned
      ensures row.notes.None? <==> notes == ""
      ensures row.notes.Some? ==> row.notes.value == notes
      ensures row.recipe_id == selectedRecipe && row.planned_date == plannedDate && row.start_time == startTime
      ensures row.quantity_multiplier == quantityMultiplier && row.user_id == userId
    {
      PlanInsert(userId, selectedRecipe, plannedDate, startTime, quantityMultiplier, Planned, TextOrNull(notes))
    }

    /** `handleAddPlan`: `session` is the signed-in user, if any, and
        `inserted` whether the store accepted the row. Without a session
        nothing is sent; after a successful insert the form closes and resets
        the notes and the multiplier; after a failure nothing changes. */
    method AddPlan(session: Option<Id>, inserted: bool) returns (sent: Option<PlanInsert>)
      modifies this
      ensures session.None? ==> sent.None?
      ensures session.Some? ==> sent == Some(old(Row(session.value)))
      ensures session.Some? && inserted ==>
                !showAddForm && notes == "" && quantityMultiplier == 1.0
                && selectedRecipe == old(selectedRecipe) && plannedDate == old(plannedDate) && startTime == old(startTime)
      ensures session.None? || !inserted ==> unchanged(this)
    {
      if session.None? {
        return None;
      }
      sent := Some(Row(session.value));
      if inserted {
        showAddForm := false;
        notes := "";
        quantityMultiplier := 1.0;
      }
    }
  }
}
