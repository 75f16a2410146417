/**
  The first two steps of `TimecardService.save`: the nested submission is walked entry by
  entry, sub-entry by sub-entry, effort input by effort input, and every input becomes one
  `Effort` record carrying what it inherits from its enclosing levels. While each record is
  built its working hours are checked against [4, 8] and its date text is parsed; the first
  input that fails either check aborts the whole walk.

  The specification is split in two: `Slots` is the traversal alone (every input with its
  inherited fields, in order), and `BuildAll` turns that sequence into records or the first
  failure. `FlattenSubmission` is the nested loop of the source, proved equal to their
  composition `Flattened`.
 */
module Flatten {
  import opened Wrappers
  import opened Dates
  import opened Domain

  /** One effort input with the fields it inherits from its entry and sub-entry. */
  datatype Slot = Slot(projectId: string, subProjectId: string, locationCode: string,
                       billable: bool, input: EffortInput)

  function SubEntrySlots(projectId: string, sub: SubEntry): (r: seq<Slot>)
    ensures |r| == |sub.efforts|
  {
    seq(|sub.efforts|, k requires 0 <= k < |sub.efforts| =>
      Slot(projectId, sub.subProjectId, sub.locationCode, sub.billable, sub.efforts[k]))
  }

  function SubEntriesSlots(projectId: string, subs: seq<SubEntry>): seq<Slot>
  {
    if subs == [] then []
    else SubEntriesSlots(projectId, subs[..|subs| - 1]) + SubEntrySlots(projectId, subs[|subs| - 1])
  }

  function EntriesSlots(entries: seq<Entry>): seq<Slot>
  {
    if entries == [] then []
    else EntriesSlots(entries[..|entries| - 1])
         + SubEntriesSlots(entries[|entries| - 1].projectId, entries[|entries| - 1].subEntries)
  }

  /** Every effort input of the submission, in entry, then sub-entry, then input order. */
  function Slots(s: Submission): seq<Slot>
  {
    EntriesSlots(s.entries)
  }

  /** The index in `Slots(s)` of input k of sub-entry j of entry i: the number of inputs before it. */
  function Position(s: Submission, i: nat, j: nat, k: nat): nat
    requires i < |s.entries| && j < |s.entries[i].subEntries|
  {
    EntriesPosition(s.entries, i, j, k)
  }

  function EntriesPosition(entries: seq<Entry>, i: nat, j: nat, k: nat): nat
    requires i < |entries| && j < |entries[i].subEntries|
  {
    |EntriesSlots(entries[..i])| + SubEntriesPosition(entries[i].projectId, entries[i].subEntries, j, k)
  }

  function SubEntriesPosition(projectId: string, subs: seq<SubEntry>, j: nat, k: nat): nat
    requires j < |subs|
  {
    |SubEntriesSlots(projectId, subs[..j])| + k
  }

  /** (i, j, k) names an effort input of the submission. */
  predicate IsInput(s: Submission, i: int, j: int, k: int) {
    0 <= i < |s.entries| && 0 <= j < |s.entries[i].subEntries|
    && 0 <= k < |s.entries[i].subEntries[j].efforts|
  }

  /** The number of effort inputs, counted entry by entry from the front. */
  function InputCount(s: Submission): nat
  {
    EntriesInputCount(s.entries)
  }

  function EntriesInputCount(entries: seq<Entry>): nat
  {
    if entries == [] then 0
    else SubEntriesInputCount(entries[0].subEntries) + EntriesInputCount(entries[1..])
  }

  function SubEntriesInputCount(subs: seq<SubEntry>): nat
  {
    if subs == [] then 0 else |subs[0].efforts| + SubEntriesInputCount(subs[1..])
  }

  // ---------------------------------------------------------------------------------------
  // Building one record, and all of them

  /** The input passes both checks made while its record is built. */
  predicate SlotAccepted(slot: Slot) {
    HoursInRange(slot.input.workingHours) && ParseDate(slot.input.date).Some?
  }

  /**
    Builds the record for one input: the hours are checked first, then the date is parsed,
    then the record takes the employee id, the inherited fields and the status `Submitted`.
   */
  function BuildEffort(employeeId: string, slot: Slot): (r: Result<Effort>)
    ensures r.Ok? <==> SlotAccepted(slot)
    ensures r.Err? ==> (r.failure == Business(WrongWorkingHours) <==> !HoursInRange(slot.input.workingHours))
    ensures r.Err? && HoursInRange(slot.input.workingHours) ==> r.failure == DateParse(slot.input.date)
  {
    if !HoursInRange(slot.input.workingHours) then Err(Business(WrongWorkingHours))
    else match ParseDate(slot.input.date)
      case None => Err(DateParse(slot.input.date))
      case Some(d) =>
        Ok(Effort(employeeId, d, slot.input.workingHours, slot.locationCode, slot.billable,
                  slot.input.note, slot.subProjectId, slot.projectId, Submitted))
  }

  /** The records of all slots, or the failure of the first slot that is not accepted. */
  function BuildAll(employeeId: string, slots: seq<Slot>): Result<seq<Effort>>
  {
    if slots == [] then Ok([])
    else match BuildAll(employeeId, slots[..|slots| - 1])
      case Err(f) => Err(f)
      case Ok(es) =>
        match BuildEffort(employeeId, slots[|slots| - 1])
        case Err(f) => Err(f)
        case Ok(e) => Ok(es + [e])
  }

  /** What `save` produces from a submission before anything external is called. */
  function Flattened(s: Submission): Result<seq<Effort>>
  {
    BuildAll(s.employeeId, Slots(s))
  }

  /** n is the first slot that is not accepted. */
  predicate FirstRejected(slots: seq<Slot>, n: int) {
    0 <= n < |slots| && !SlotAccepted(slots[n])
    && forall m :: 0 <= m < n ==> SlotAccepted(slots[m])
  }

  /**
    All slots are built exactly when every slot is accepted; then there is one record per
    slot, at the slot's own index.
   */
  lemma {:induction false} BuildAllOk(employeeId: string, slots: seq<Slot>)
    ensures BuildAll(employeeId, slots).Ok? <==> forall n :: 0 <= n < |slots| ==> SlotAccepted(slots[n])
    ensures BuildAll(employeeId, slots).Ok? ==>
      |BuildAll(employeeId, slots).value| == |slots|
      && forall n :: 0 <= n < |slots| ==>
           BuildEffort(employeeId, slots[n]) == Ok(BuildAll(employeeId, slots).value[n])
  {
    if slots != [] {
      var init := slots[..|slots| - 1];
      BuildAllOk(employeeId, init);
      assert forall n :: 0 <= n < |init| ==> slots[n] == init[n];
    }
  }

  /** A failure is always the failure of the first slot that is not accepted. */
  lemma {:induction false} BuildAllErr(employeeId: string, slots: seq<Slot>)
    requires BuildAll(employeeId, slots).Err?
    ensures exists n :: FirstRejected(slots, n)
                        && BuildAll(employeeId, slots).failure == BuildEffort(employeeId, slots[n]).failure
  {
    var init := slots[..|slots| - 1];
    assert forall n :: 0 <= n < |init| ==> slots[n] == init[n];
    if BuildAll(employeeId, init).Err? {
      BuildAllErr(employeeId, init);
      var n :| FirstRejected(init, n)
               && BuildAll(employeeId, init).failure == BuildEffort(employeeId, init[n]).failure;
      assert FirstRejected(slots, n);
    } else {
      BuildAllOk(employeeId, init);
      assert FirstRejected(slots, |slots| - 1);
    }
  }

  /** Once a prefix has failed, nothing after it changes the outcome. */
  lemma {:induction false} BuildAllErrPrefix(employeeId: string, a: seq<Slot>, b: seq<Slot>)
    requires a <= b && BuildAll(employeeId, a).Err?
    ensures BuildAll(employeeId, b) == BuildAll(employeeId, a)
  {
    if |b| > |a| {
      var init := b[..|b| - 1];
      assert a <= init;
      BuildAllErrPrefix(employeeId, a, init);
    } else {
      assert a == b;
    }
  }

  /** Building a concatenation: the first part's failure, else the second's, else both lists. */
  lemma {:induction false} BuildAllAppend(employeeId: string, a: seq<Slot>, b: seq<Slot>)
    ensures BuildAll(employeeId, a + b) ==
      match BuildAll(employeeId, a)
      case Err(f) => Err(f)
      case Ok(x) =>
        match BuildAll(employeeId, b)
        case Err(f) => Err(f)
        case Ok(y) => Ok(x + y)
  {
    if b == [] {
      assert a + b == a;
      assert BuildAll(employeeId, b) == Ok([]);
      if BuildAll(employeeId, a).Ok? {
        assert BuildAll(employeeId, a).value + [] == BuildAll(employeeId, a).value;
      }
    } else {
      var init, last := b[..|b| - 1], b[|b| - 1];
      assert (a + b)[..|a + b| - 1] == a + init && (a + b)[|a + b| - 1] == last;
      BuildAllAppend(employeeId, a, init);
      if BuildAll(employeeId, a).Ok? && BuildAll(employeeId, init).Ok? && BuildEffort(employeeId, last).Ok? {
        var x, y, e := BuildAll(employeeId, a).value, BuildAll(employeeId, init).value, BuildEffort(employeeId, last).value;
        assert x + y + [e] == x + (y + [e]);
      }
    }
  }

  // ---------------------------------------------------------------------------------------
  // The traversal

  lemma SubEntriesSlotsStep(projectId: string, subs: seq<SubEntry>, j: nat)
    requires j < |subs|
    ensures SubEntriesSlots(projectId, subs[..j + 1])
         == SubEntriesSlots(projectId, subs[..j]) + SubEntrySlots(projectId, subs[j])
  {
    assert subs[..j + 1][..j] == subs[..j];
  }

  lemma EntriesSlotsStep(entries: seq<Entry>, i: nat)
    requires i < |entries|
    ensures EntriesSlots(entries[..i + 1])
         == EntriesSlots(entries[..i]) + SubEntriesSlots(entries[i].projectId, entries[i].subEntries)
  {
    assert entries[..i + 1][..i] == entries[..i];
  }

  lemma {:induction false} SubEntriesSlotsPrefix(projectId: string, subs: seq<SubEntry>, j: nat)
    requires j <= |subs|
    ensures SubEntriesSlots(projectId, subs[..j]) <= SubEntriesSlots(projectId, subs)
  {
    if j < |subs| {
      var init := subs[..|subs| - 1];
      assert init[..j] == subs[..j];
      SubEntriesSlotsPrefix(projectId, init, j);
    } else {
      assert subs[..j] == subs;
    }
  }

  lemma {:induction false} EntriesSlotsPrefix(entries: seq<Entry>, i: nat)
    requires i <= |entries|
    ensures EntriesSlots(entries[..i]) <= EntriesSlots(entries)
  {
    if i < |entries| {
      var init := entries[..|entries| - 1];
      assert init[..i] == entries[..i];
      EntriesSlotsPrefix(init, i);
    } else {
      assert entries[..i] == entries;
    }
  }

  /** The slots up to the end of sub-entry j of entry i are a prefix of all slots. */
  lemma SubEntryPrefix(s: Submission, i: nat, j: nat)
    requires i < |s.entries| && j < |s.entries[i].subEntries|
    ensures var e := s.entries[i];
            EntriesSlots(s.entries[..i]) + SubEntriesSlots(e.projectId, e.subEntries[..j + 1]) <= Slots(s)
  {
    var e := s.entries[i];
    var done := EntriesSlots(s.entries[..i]);
    SubEntriesSlotsPrefix(e.projectId, e.subEntries, j + 1);
    EntriesSlotsStep(s.entries, i);
    EntriesSlotsPrefix(s.entries, i + 1);
  }

  /** The slots up to and including input (i, j, k) are a prefix of all slots. */
  lemma PrefixThrough(s: Submission, i: nat, j: nat, k: nat)
    requires IsInput(s, i, j, k)
    ensures var e := s.entries[i];
            EntriesSlots(s.entries[..i]) + SubEntriesSlots(e.projectId, e.subEntries[..j])
            + SubEntrySlots(e.projectId, e.subEntries[j])[..k + 1] <= Slots(s)
  {
    var e := s.entries[i];
    var done := EntriesSlots(s.entries[..i]);
    var subsDone := SubEntriesSlots(e.projectId, e.subEntries[..j]);
    var here := SubEntrySlots(e.projectId, e.subEntries[j]);
    SubEntriesSlotsStep(e.projectId, e.subEntries, j);
    SubEntryPrefix(s, i, j);
    assert done + subsDone + here[..k + 1] <= done + subsDone + here;
  }

  /**
    Input k of sub-entry j of entry i sits at `Position(s, i, j, k)` of the traversal,
    carrying its entry's project id and its sub-entry's fields.
   */
  lemma SlotAt(s: Submission, i: nat, j: nat, k: nat)
    requires IsInput(s, i, j, k)
    ensures Position(s, i, j, k) < |Slots(s)|
    ensures var e := s.entries[i]; var sub := e.subEntries[j];
            Slots(s)[Position(s, i, j, k)]
            == Slot(e.projectId, sub.subProjectId, sub.locationCode, sub.billable, sub.efforts[k])
  {
    PrefixThrough(s, i, j, k);
    var e := s.entries[i];
    var p := EntriesSlots(s.entries[..i]) + SubEntriesSlots(e.projectId, e.subEntries[..j])
             + SubEntrySlots(e.projectId, e.subEntries[j])[..k + 1];
    assert |p| == Position(s, i, j, k) + 1;
    assert Slots(s)[Position(s, i, j, k)] == p[|p| - 1];
  }

  /** Positions follow the nesting order: entry first, then sub-entry, then input. */
  lemma PositionOrder(s: Submission, i: nat, j: nat, k: nat, i': nat, j': nat, k': nat)
    requires IsInput(s, i, j, k) && IsInput(s, i', j', k')
    requires i < i' || (i == i' && j < j') || (i == i' && j == j' && k < k')
    ensures Position(s, i, j, k) < Position(s, i', j', k')
  {
    var e := s.entries[i];
    SubEntriesSlotsStep(e.projectId, e.subEntries, j);
    if i < i' {
      SubEntriesSlotsPrefix(e.projectId, e.subEntries, j + 1);
      EntriesSlotsStep(s.entries, i);
      assert s.entries[..i'][..i + 1] == s.entries[..i + 1];
      EntriesSlotsPrefix(s.entries[..i'], i + 1);
    } else if j < j' {
      assert e.subEntries[..j'][..j + 1] == e.subEntries[..j + 1];
      SubEntriesSlotsPrefix(e.projectId, e.subEntries[..j'], j + 1);
    }
  }

  /** Every index of the traversal is the position of some effort input. */
  lemma {:induction false} SubEntriesCover(projectId: string, subs: seq<SubEntry>, n: nat)
    requires n < |SubEntriesSlots(projectId, subs)|
    ensures exists j, k :: 0 <= j < |subs| && 0 <= k < |subs[j].efforts|
                           && SubEntriesPosition(projectId, subs, j, k) == n
  {
    var last := |subs| - 1;
    var init := subs[..last];
    if n < |SubEntriesSlots(projectId, init)| {
      SubEntriesCover(projectId, init, n);
      var j, k :| 0 <= j < |init| && 0 <= k < |init[j].efforts|
                  && SubEntriesPosition(projectId, init, j, k) == n;
      assert init[..j] == subs[..j];
      assert SubEntriesPosition(projectId, subs, j, k) == n;
    } else {
      var k := n - |SubEntriesSlots(projectId, init)|;
      assert 0 <= k < |subs[last].efforts| && SubEntriesPosition(projectId, subs, last, k) == n;
    }
  }

  lemma {:induction false} EntriesCover(entries: seq<Entry>, n: nat)
    requires n < |EntriesSlots(entries)|
    ensures exists i, j, k :: 0 <= i < |entries| && 0 <= j < |entries[i].subEntries|
                              && 0 <= k < |entries[i].subEntries[j].efforts|
                              && EntriesPosition(entries, i, j, k) == n
  {
    var last := |entries| - 1;
    var init := entries[..last];
    if n < |EntriesSlots(init)| {
      EntriesCover(init, n);
      var i, j, k :| 0 <= i < |init| && 0 <= j < |init[i].subEntries|
                     && 0 <= k < |init[i].subEntries[j].efforts|
                     && EntriesPosition(init, i, j, k) == n;
      assert init[..i] == entries[..i];
      assert EntriesPosition(entries, i, j, k) == n;
    } else {
      var e := entries[last];
      SubEntriesCover(e.projectId, e.subEntries, n - |EntriesSlots(init)|);
      var j, k :| 0 <= j < |e.subEntries| && 0 <= k < |e.subEntries[j].efforts|
                  && SubEntriesPosition(e.projectId, e.subEntries, j, k) == n - |EntriesSlots(init)|;
      assert EntriesPosition(entries, last, j, k) == n;
    }
  }

  /** Nothing else is in the traversal: every slot index is the position of an input. */
  lemma SlotsCover(s: Submission, n: nat)
    requires n < |Slots(s)|
    ensures exists i, j, k :: IsInput(s, i, j, k) && Position(s, i, j, k) == n
  {
    EntriesCover(s.entries, n);
    var i, j, k :| 0 <= i < |s.entries| && 0 <= j < |s.entries[i].subEntries|
                   && 0 <= k < |s.entries[i].subEntries[j].efforts|
                   && EntriesPosition(s.entries, i, j, k) == n;
    assert IsInput(s, i, j, k) && Position(s, i, j, k) == n;
  }

  lemma {:induction false} SubEntriesCount(projectId: string, subs: seq<SubEntry>)
    ensures |SubEntriesSlots(projectId, subs)| == SubEntriesInputCount(subs)
  {
    if subs != [] {
      SubEntriesCount(projectId, subs[1..]);
      SubEntriesSlotsFront(projectId, subs);
    }
  }

  lemma {:induction false} SubEntriesSlotsFront(projectId: string, subs: seq<SubEntry>)
    requires subs != []
    ensures SubEntriesSlots(projectId, subs)
         == SubEntrySlots(projectId, subs[0]) + SubEntriesSlots(projectId, subs[1..])
  {
    if |subs| > 1 {
      var init := subs[..|subs| - 1];
      SubEntriesSlotsFront(projectId, init);
      assert init[1..] == subs[1..][..|subs[1..]| - 1];
    } else {
      assert subs[..0] == [] && subs[1..] == [];
    }
  }

  lemma {:induction false} EntriesSlotsFront(entries: seq<Entry>)
    requires entries != []
    ensures EntriesSlots(entries)
         == SubEntriesSlots(entries[0].projectId, entries[0].subEntries) + EntriesSlots(entries[1..])
  {
    var first := SubEntriesSlots(entries[0].projectId, entries[0].subEntries);
    var last := entries[|entries| - 1];
    var lastSlots := SubEntriesSlots(last.projectId, last.subEntries);
    var init := entries[..|entries| - 1];
    if |entries| > 1 {
      EntriesSlotsFront(init);
      assert init[0] == entries[0];
      var rest := entries[1..];
      assert rest[..|rest| - 1] == init[1..] && rest[|rest| - 1] == last;
      assert EntriesSlots(rest) == EntriesSlots(init[1..]) + lastSlots;
      calc {
        EntriesSlots(entries);
        EntriesSlots(init) + lastSlots;
        first + EntriesSlots(init[1..]) + lastSlots;
        first + EntriesSlots(rest);
      }
    } else {
      assert init == [] && entries[1..] == [];
    }
  }

  lemma {:induction false} EntriesCount(entries: seq<Entry>)
    ensures |EntriesSlots(entries)| == EntriesInputCount(entries)
  {
    if entries != [] {
      EntriesCount(entries[1..]);
      EntriesSlotsFront(entries);
      SubEntriesCount(entries[0].projectId, entries[0].subEntries);
    }
  }

  // ---------------------------------------------------------------------------------------
  // What the flatten step promises about a submission

  /**
    The submission is flattened without failure exactly when every effort input has hours in
    [4, 8] (both bounds included) and a date text the parser accepts.
   */
  lemma FlattenedOkIff(s: Submission)
    ensures Flattened(s).Ok? <==>
      forall i, j, k :: IsInput(s, i, j, k) ==>
        var input := s.entries[i].subEntries[j].efforts[k];
        HoursInRange(input.workingHours) && ParseDate(input.date).Some?
  {
    BuildAllOk(s.employeeId, Slots(s));
    forall i, j, k | IsInput(s, i, j, k) {
      SlotAt(s, i, j, k);
    }
    if !Flattened(s).Ok? {
      var n :| 0 <= n < |Slots(s)| && !SlotAccepted(Slots(s)[n]);
      SlotsCover(s, n);
      var i, j, k :| IsInput(s, i, j, k) && Position(s, i, j, k) == n;
    }
  }

  /**
    On success there is exactly one record per effort input, at the input's position, and it
    carries the employee id, the entry's project id, the sub-entry's sub-project id, location
    code and billable flag, the input's parsed date, hours and note, and status `Submitted`.
   */
  lemma FlattenedEffortAt(s: Submission, i: nat, j: nat, k: nat)
    requires Flattened(s).Ok? && IsInput(s, i, j, k)
    ensures |Flattened(s).value| == InputCount(s) && Position(s, i, j, k) < InputCount(s)
    ensures var e := s.entries[i]; var sub := e.subEntries[j]; var input := sub.efforts[k];
            ParseDate(input.date).Some?
            && Flattened(s).value[Position(s, i, j, k)]
               == Effort(s.employeeId, ParseDate(input.date).value, input.workingHours,
                         sub.locationCode, sub.billable, input.note, sub.subProjectId,
                         e.projectId, Submitted)
  {
    BuildAllOk(s.employeeId, Slots(s));
    EntriesCount(s.entries);
    SlotAt(s, i, j, k);
  }

  /** On success the record count is the number of effort inputs. */
  lemma FlattenedCount(s: Submission)
    requires Flattened(s).Ok?
    ensures |Flattened(s).value| == InputCount(s)
  {
    BuildAllOk(s.employeeId, Slots(s));
    EntriesCount(s.entries);
  }

  /**
    An input with hours below 4 or above 8 makes the flatten step fail; when every date text
    of the submission parses, the failure is `WrongWorkingHours`.
   */
  lemma WrongHoursRejected(s: Submission, i: nat, j: nat, k: nat)
    requires IsInput(s, i, j, k)
    requires !HoursInRange(s.entries[i].subEntries[j].efforts[k].workingHours)
    ensures Flattened(s).Err?
    ensures (forall n :: 0 <= n < |Slots(s)| ==> ParseDate(Slots(s)[n].input.date).Some?)
            ==> Flattened(s).failure == Business(WrongWorkingHours)
  {
    FlattenedOkIff(s);
    if Flattened(s).Err? {
      BuildAllErr(s.employeeId, Slots(s));
    }
  }

  /**
    Which error a failed submission raises is decided by the first input that fails a check:
    WRONG_WORKING_HOURS exactly when that input's hours are out of range, otherwise the parse
    error of that input's date text.
   */
  lemma FlattenedFailure(s: Submission)
    requires Flattened(s).Err?
    ensures exists n :: FirstRejected(Slots(s), n)
                        && (Flattened(s).failure == Business(WrongWorkingHours)
                            <==> !HoursInRange(Slots(s)[n].input.workingHours))
                        && (HoursInRange(Slots(s)[n].input.workingHours)
                            ==> Flattened(s).failure == DateParse(Slots(s)[n].input.date))
  {
    BuildAllErr(s.employeeId, Slots(s));
  }

  // ---------------------------------------------------------------------------------------
  // The nested loop of the source

  /**
    The stream over one sub-entry's effort inputs: each input's hours are checked and its date
    parsed as its record is built, and the first input that fails ends the walk.
   */
  method MapEfforts(employeeId: string, projectId: string, sub: SubEntry)
    returns (r: Result<seq<Effort>>)
    ensures r == BuildAll(employeeId, SubEntrySlots(projectId, sub))
  {
    ghost var here := SubEntrySlots(projectId, sub);
    var mapped: seq<Effort> := [];
    var k := 0;
    assert here[..0] == [];
    while k < |sub.efforts|
      invariant 0 <= k <= |sub.efforts|
      invariant BuildAll(employeeId, here[..k]) == Ok(mapped)
    {
      var input := sub.efforts[k];
      assert here[..k + 1][..k] == here[..k];
      if input.workingHours < MinWorkingHours || input.workingHours > MaxWorkingHours {
        BuildAllErrPrefix(employeeId, here[..k + 1], here);
        return Err(Business(WrongWorkingHours));
      }
      var date := ParseDate(input.date);
      if date.None? {
        BuildAllErrPrefix(employeeId, here[..k + 1], here);
        return Err(DateParse(input.date));
      }
      mapped := mapped + [Effort(employeeId, date.value, input.workingHours,
                                 sub.locationCode, sub.billable, input.note,
                                 sub.subProjectId, projectId, Submitted)];
      k := k + 1;
    }
    assert here[..k] == here;
    r := Ok(mapped);
  }

  /**
    The records of one entry: its sub-entries' records in order, or the first failure.
   */
  method FlattenEntry(employeeId: string, entry: Entry) returns (r: Result<seq<Effort>>)
    ensures r == BuildAll(employeeId, SubEntriesSlots(entry.projectId, entry.subEntries))
  {
    var efforts: seq<Effort> := [];
    var j := 0;
    assert entry.subEntries[..0] == [];
    while j < |entry.subEntries|
      invariant 0 <= j <= |entry.subEntries|
      invariant BuildAll(employeeId, SubEntriesSlots(entry.projectId, entry.subEntries[..j])) == Ok(efforts)
    {
      ghost var before := SubEntriesSlots(entry.projectId, entry.subEntries[..j]);
      ghost var here := SubEntrySlots(entry.projectId, entry.subEntries[j]);
      SubEntriesSlotsStep(entry.projectId, entry.subEntries, j);
      BuildAllAppend(employeeId, before, here);
      var mapped := MapEfforts(employeeId, entry.projectId, entry.subEntries[j]);
      if mapped.Err? {
        SubEntriesSlotsPrefix(entry.projectId, entry.subEntries, j + 1);
        BuildAllErrPrefix(employeeId, before + here, SubEntriesSlots(entry.projectId, entry.subEntries));
        return Err(mapped.failure);
      }
      efforts := efforts + mapped.value;
      j := j + 1;
    }
    assert entry.subEntries[..j] == entry.subEntries;
    r := Ok(efforts);
  }

  /**
    Walks the entries in order, appending each entry's records to the result, and stops at the
    first failure.
   */
  method FlattenSubmission(s: Submission) returns (r: Result<seq<Effort>>)
    ensures r == Flattened(s)
  {
    var list: seq<Effort> := [];
    var i := 0;
    assert s.entries[..0] == [];
    while i < |s.entries|
      invariant 0 <= i <= |s.entries|
      invariant BuildAll(s.employeeId, EntriesSlots(s.entries[..i])) == Ok(list)
    {
      var entry := s.entries[i];
      ghost var before := EntriesSlots(s.entries[..i]);
      ghost var here := SubEntriesSlots(entry.projectId, entry.subEntries);
      EntriesSlotsStep(s.entries, i);
      BuildAllAppend(s.employeeId, before, here);
      var efforts := FlattenEntry(s.employeeId, entry);
      if efforts.Err? {
        EntriesSlotsPrefix(s.entries, i + 1);
        BuildAllErrPrefix(s.employeeId, before + here, Slots(s));
        return Err(efforts.failure);
      }
      list := list + efforts.value;
      i := i + 1;
    }
    assert s.entries[..i] == s.entries;
    r := Ok(list);
  }
}
