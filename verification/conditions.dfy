/** The condition state machine behind `updateConditions`, on the values of the condition
    list: one step per outcome, and what a whole history of outcomes leaves behind. */
module Conditions {
  import opened Wrappers
  import opened ApiTypes
  import opened Errors

  // ---- Classification of outcomes; `None` is success ----

  /** An API error with a terminal code. */
  predicate TerminalAWSError(err: Option<Error>) {
    err.Some? && err.value.api.Some? && err.value.api.value.code == "ValidationException"
  }

  /** Terminal by identity or by a wrapped `TerminalError`. */
  predicate TerminalByKind(err: Option<Error>) {
    && err.Some?
    && (err.value.sentinel.SecretTypeNotSupported? || err.value.sentinel.SecretNotFound? || err.value.wrapsTerminal)
  }

  predicate IsTerminal(err: Option<Error>) {
    TerminalAWSError(err) || TerminalByKind(err)
  }

  function MessageOf(err: Option<Error>): string
    requires err.Some?
  {
    if IsTerminal(err) && TerminalByKind(err) then err.value.text
    else if err.value.api.Some? then err.value.api.value.text
    else err.value.text
  }

  // ---- One step ----

  /** The last entry of a type; -1 if there is none. */
  function LastOf(cs: seq<CondV>, ty: ConditionType): (i: int)
    ensures -1 <= i < |cs|
    ensures 0 <= i ==> cs[i].Cond? && cs[i].ctype == ty
    ensures forall j :: i < j < |cs| ==> !(cs[j].Cond? && cs[j].ctype == ty)
  {
    if cs == [] then -1
    else if cs[|cs| - 1].Cond? && cs[|cs| - 1].ctype == ty then |cs| - 1
    else LastOf(cs[..|cs| - 1], ty)
  }

  /** Set the last entry of a type, appending one if there is none. */
  function Mark(cs: seq<CondV>, ty: ConditionType, message: string): seq<CondV> {
    var i := LastOf(cs, ty);
    if i < 0 then cs + [Cond(ty, True, Some(message), None, None)]
    else cs[i := cs[i].(status := True, message := Some(message))]
  }

  /** Clear the last entry of a type, if there is one. */
  function Clear(cs: seq<CondV>, ty: ConditionType): seq<CondV> {
    var i := LastOf(cs, ty);
    if i < 0 then cs else cs[i := cs[i].(status := False, message := None)]
  }

  /** The conditions after an outcome. A terminal error leaves Recoverable alone. */
  function Next(cs: seq<CondV>, err: Option<Error>): seq<CondV> {
    if IsTerminal(err) then Mark(cs, ConditionType.Terminal, MessageOf(err))
    else
      var cleared := Clear(cs, ConditionType.Terminal);
      if err.Some? then Mark(cleared, Recoverable, MessageOf(err)) else Clear(cleared, Recoverable)
  }

  /** `updateConditions` reports an update: there is an entry it looks after. */
  predicate Tracked(cs: seq<CondV>, err: Option<Error>) {
    || err.Some?
    || LastOf(cs, ConditionType.Terminal) >= 0 || LastOf(cs, Recoverable) >= 0 || LastOf(cs, ResourceSynced) >= 0
  }

  predicate TrueAt(cs: seq<CondV>, i: int, ty: ConditionType) {
    0 <= i < |cs| && cs[i].Cond? && cs[i].ctype == ty && cs[i].status == True
  }

  predicate HasTrue(cs: seq<CondV>, ty: ConditionType) {
    exists i :: 0 <= i < |cs| && TrueAt(cs, i, ty)
  }

  /** An entry that a later one of the same type hides from every update is True. */
  predicate Shadowed(cs: seq<CondV>, ty: ConditionType) {
    exists i :: 0 <= i < LastOf(cs, ty) && TrueAt(cs, i, ty)
  }

  predicate Effective(cs: seq<CondV>, ty: ConditionType) {
    TrueAt(cs, LastOf(cs, ty), ty)
  }

  ghost predicate AtMostOne(cs: seq<CondV>, ty: ConditionType) {
    forall i, j :: 0 <= i < j < |cs| && cs[i].Cond? && cs[j].Cond? ==> !(cs[i].ctype == ty && cs[j].ctype == ty)
  }

  lemma TrueIsShadowedOrEffective(cs: seq<CondV>, ty: ConditionType)
    ensures HasTrue(cs, ty) <==> Shadowed(cs, ty) || Effective(cs, ty)
    ensures AtMostOne(cs, ty) ==> !Shadowed(cs, ty)
  {
  }

  lemma LastOfUnique(cs: seq<CondV>, ty: ConditionType, i: int)
    requires 0 <= i < |cs| && cs[i].Cond? && cs[i].ctype == ty
    requires forall j :: i < j < |cs| ==> !(cs[j].Cond? && cs[j].ctype == ty)
    ensures LastOf(cs, ty) == i
  {
  }

  lemma MarkOwn(cs: seq<CondV>, ty: ConditionType, message: string)
    ensures Effective(Mark(cs, ty, message), ty)
    ensures Shadowed(Mark(cs, ty, message), ty) <==> Shadowed(cs, ty)
    ensures LastOf(Mark(cs, ty, message), ty) == if LastOf(cs, ty) < 0 then |cs| else LastOf(cs, ty)
  {
    var out, i := Mark(cs, ty, message), LastOf(cs, ty);
    LastOfUnique(out, ty, if i < 0 then |cs| else i);
    assert forall j :: 0 <= j < LastOf(out, ty) ==> (TrueAt(out, j, ty) <==> TrueAt(cs, j, ty));
  }

  lemma ClearOwn(cs: seq<CondV>, ty: ConditionType)
    ensures !Effective(Clear(cs, ty), ty)
    ensures Shadowed(Clear(cs, ty), ty) <==> Shadowed(cs, ty)
    ensures LastOf(Clear(cs, ty), ty) == LastOf(cs, ty)
  {
    var out := Clear(cs, ty);
    if LastOf(cs, ty) >= 0 {
      LastOfUnique(out, ty, LastOf(cs, ty));
    }
    assert forall j :: 0 <= j < LastOf(cs, ty) ==> (TrueAt(out, j, ty) <==> TrueAt(cs, j, ty));
  }

  /** A change to entries of one type is not seen from another. */
  lemma OtherType(cs: seq<CondV>, out: seq<CondV>, other: ConditionType)
    requires |cs| <= |out|
    requires forall j :: 0 <= j < |cs| && out[j] != cs[j] ==>
                           cs[j].Cond? && out[j].Cond? && cs[j].ctype == out[j].ctype != other
    requires forall j :: |cs| <= j < |out| ==> out[j].Cond? && out[j].ctype != other
    ensures LastOf(out, other) == LastOf(cs, other)
    ensures Shadowed(out, other) <==> Shadowed(cs, other)
    ensures Effective(out, other) <==> Effective(cs, other)
  {
    if LastOf(cs, other) >= 0 {
      LastOfUnique(out, other, LastOf(cs, other));
    }
    assert forall j :: 0 <= j < |cs| ==> (TrueAt(out, j, other) <==> TrueAt(cs, j, other));
  }

  lemma MarkMeaning(cs: seq<CondV>, ty: ConditionType, message: string, other: ConditionType)
    requires other != ty
    ensures Effective(Mark(cs, ty, message), ty)
    ensures Shadowed(Mark(cs, ty, message), ty) <==> Shadowed(cs, ty)
    ensures LastOf(Mark(cs, ty, message), ty) == if LastOf(cs, ty) < 0 then |cs| else LastOf(cs, ty)
    ensures LastOf(Mark(cs, ty, message), other) == LastOf(cs, other)
    ensures Shadowed(Mark(cs, ty, message), other) <==> Shadowed(cs, other)
    ensures Effective(Mark(cs, ty, message), other) <==> Effective(cs, other)
  {
    MarkOwn(cs, ty, message);
    OtherType(cs, Mark(cs, ty, message), other);
  }

  lemma ClearMeaning(cs: seq<CondV>, ty: ConditionType, other: ConditionType)
    requires other != ty
    ensures !Effective(Clear(cs, ty), ty)
    ensures Shadowed(Clear(cs, ty), ty) <==> Shadowed(cs, ty)
    ensures LastOf(Clear(cs, ty), ty) == LastOf(cs, ty)
    ensures LastOf(Clear(cs, ty), other) == LastOf(cs, other)
    ensures Shadowed(Clear(cs, ty), other) <==> Shadowed(cs, other)
    ensures Effective(Clear(cs, ty), other) <==> Effective(cs, other)
  {
    ClearOwn(cs, ty);
    OtherType(cs, Clear(cs, ty), other);
  }

  /** One step, for each of the two conditions. */
  lemma StepMeaning(cs: seq<CondV>, err: Option<Error>)
    ensures Effective(Next(cs, err), ConditionType.Terminal) <==> IsTerminal(err)
    ensures Effective(Next(cs, err), Recoverable) <==> if IsTerminal(err) then Effective(cs, Recoverable) else err.Some?
    ensures forall ty :: ty in {ConditionType.Terminal, Recoverable} ==>
                           (Shadowed(Next(cs, err), ty) <==> Shadowed(cs, ty))
  {
    if IsTerminal(err) {
      MarkMeaning(cs, ConditionType.Terminal, MessageOf(err), Recoverable);
    } else {
      var cleared := Clear(cs, ConditionType.Terminal);
      ClearMeaning(cs, ConditionType.Terminal, Recoverable);
      if err.Some? {
        MarkMeaning(cleared, Recoverable, MessageOf(err), ConditionType.Terminal);
      } else {
        ClearMeaning(cleared, Recoverable, ConditionType.Terminal);
      }
    }
  }

  // ---- Histories ----

  /** The conditions after a sequence of outcomes. */
  function After(cs: seq<CondV>, outcomes: seq<Option<Error>>): seq<CondV> {
    if outcomes == [] then cs
    else Next(After(cs, outcomes[..|outcomes| - 1]), outcomes[|outcomes| - 1])
  }

  /** The position of the last outcome that was not a terminal error; -1 if there is none. */
  function LastNonTerminal(outcomes: seq<Option<Error>>): (i: int)
    ensures -1 <= i < |outcomes|
    ensures 0 <= i ==> !IsTerminal(outcomes[i])
    ensures forall j :: i < j < |outcomes| ==> IsTerminal(outcomes[j])
  {
    if outcomes == [] then -1
    else if !IsTerminal(outcomes[|outcomes| - 1]) then |outcomes| - 1
    else LastNonTerminal(outcomes[..|outcomes| - 1])
  }

  /** Conditions are a function of the history, from any list at all: Terminal is True iff
      the last outcome was a terminal error, Recoverable iff the last outcome that was not
      a terminal error was an error (with none, as it was initially) -- unless a duplicate
      entry, hidden from every update, was True to begin with. */
  lemma {:induction false} ConditionsAreHistory(cs: seq<CondV>, outcomes: seq<Option<Error>>)
    requires outcomes != []
    ensures HasTrue(After(cs, outcomes), ConditionType.Terminal)
            <==> IsTerminal(outcomes[|outcomes| - 1]) || Shadowed(cs, ConditionType.Terminal)
    ensures HasTrue(After(cs, outcomes), Recoverable)
            <==> Shadowed(cs, Recoverable)
                 || if LastNonTerminal(outcomes) < 0 then Effective(cs, Recoverable)
                    else outcomes[LastNonTerminal(outcomes)].Some?
  {
    HistorySteps(cs, outcomes);
    TrueIsShadowedOrEffective(After(cs, outcomes), ConditionType.Terminal);
    TrueIsShadowedOrEffective(After(cs, outcomes), Recoverable);
  }

  lemma {:induction false} HistorySteps(cs: seq<CondV>, outcomes: seq<Option<Error>>)
    ensures forall ty :: ty in {ConditionType.Terminal, Recoverable} ==>
                           (Shadowed(After(cs, outcomes), ty) <==> Shadowed(cs, ty))
    ensures outcomes != [] ==>
              (Effective(After(cs, outcomes), ConditionType.Terminal) <==> IsTerminal(outcomes[|outcomes| - 1]))
    ensures Effective(After(cs, outcomes), Recoverable)
            <==> if LastNonTerminal(outcomes) < 0 then Effective(cs, Recoverable)
                 else outcomes[LastNonTerminal(outcomes)].Some?
  {
    if outcomes != [] {
      var init := outcomes[..|outcomes| - 1];
      HistorySteps(cs, init);
      StepMeaning(After(cs, init), outcomes[|outcomes| - 1]);
    }
  }

  /** The promise, on lists with at most one entry of each type. */
  lemma ConditionsOnUniqueLists(cs: seq<CondV>, outcomes: seq<Option<Error>>)
    requires outcomes != [] && AtMostOne(cs, ConditionType.Terminal) && AtMostOne(cs, Recoverable)
    ensures HasTrue(After(cs, outcomes), ConditionType.Terminal) <==> IsTerminal(outcomes[|outcomes| - 1])
    ensures HasTrue(After(cs, outcomes), Recoverable)
            <==> if LastNonTerminal(outcomes) < 0 then HasTrue(cs, Recoverable)
                 else outcomes[LastNonTerminal(outcomes)].Some?
    ensures AtMostOne(After(cs, outcomes), ConditionType.Terminal) && AtMostOne(After(cs, outcomes), Recoverable)
  {
    ConditionsAreHistory(cs, outcomes);
    TrueIsShadowedOrEffective(cs, ConditionType.Terminal);
    TrueIsShadowedOrEffective(cs, Recoverable);
    ListGrowth(cs, outcomes);
  }

  /** The Terminal entry carries a message exactly while it is True: that of the last error. */
  lemma TerminalMessage(cs: seq<CondV>, outcomes: seq<Option<Error>>)
    requires outcomes != []
    ensures var after, last := After(cs, outcomes), outcomes[|outcomes| - 1];
            var i := LastOf(after, ConditionType.Terminal);
            i >= 0 ==> after[i].status == (if IsTerminal(last) then True else False)
                       && after[i].message == if IsTerminal(last) then Some(MessageOf(last)) else None
  {
    var before, last := After(cs, outcomes[..|outcomes| - 1]), outcomes[|outcomes| - 1];
    StepLast(before, last);
    StepMeaning(before, last);
    if !IsTerminal(last) {
      var cleared := Clear(before, ConditionType.Terminal);
      ClearMeaning(before, ConditionType.Terminal, Recoverable);
      ClearMeaning(cleared, Recoverable, ConditionType.Terminal);
    }
  }

  /** The uniqueness matters: with a hidden duplicate, Terminal survives a success. */
  lemma HiddenTerminalSurvives()
    ensures var hidden := Cond(ConditionType.Terminal, True, None, None, None);
            HasTrue(After([hidden, hidden], [None]), ConditionType.Terminal)
  {
    var hidden := Cond(ConditionType.Terminal, True, None, None, None);
    LastOfUnique([hidden, hidden], ConditionType.Terminal, 1);
    assert TrueAt([hidden, hidden], 0, ConditionType.Terminal);
    ConditionsAreHistory([hidden, hidden], [None]);
  }

  // ---- What a history leaves of the list ----

  ghost predicate SameEntry(a: CondV, b: CondV) {
    a == b || (a.Cond? && b.Cond? && a == b.(status := a.status, message := a.message)
               && a.ctype in {ConditionType.Terminal, Recoverable})
  }

  predicate Grows(cs: seq<CondV>, outcomes: seq<Option<Error>>, ty: ConditionType) {
    && LastOf(cs, ty) < 0
    && exists i :: 0 <= i < |outcomes| && outcomes[i].Some? && ty == Needed(outcomes[i])
  }

  /** Entries are never lost, reordered or retyped; only the last Terminal and the last
      Recoverable entry change, and of those only status and message; the list grows by
      exactly one entry per condition that was missing and has been needed. */
  lemma {:induction false} ListGrowth(cs: seq<CondV>, outcomes: seq<Option<Error>>)
    ensures |After(cs, outcomes)| == |cs| + (if Grows(cs, outcomes, ConditionType.Terminal) then 1 else 0)
                                     + (if Grows(cs, outcomes, Recoverable) then 1 else 0)
    ensures forall i :: 0 <= i < |cs| ==> SameEntry(After(cs, outcomes)[i], cs[i])
    ensures forall i :: 0 <= i < |cs| && i != LastOf(cs, ConditionType.Terminal) && i != LastOf(cs, Recoverable)
                        ==> After(cs, outcomes)[i] == cs[i]
    ensures forall ty :: ty in {ConditionType.Terminal, Recoverable} && AtMostOne(cs, ty) ==>
                           AtMostOne(After(cs, outcomes), ty)
    ensures forall ty :: ty in {ConditionType.Terminal, Recoverable} ==>
                           (LastOf(After(cs, outcomes), ty) >= 0 <==> LastOf(cs, ty) >= 0 || Grows(cs, outcomes, ty))
    ensures forall ty :: ty in {ConditionType.Terminal, Recoverable} && LastOf(cs, ty) >= 0 ==>
                           LastOf(After(cs, outcomes), ty) == LastOf(cs, ty)
  {
    hide Next, LastOf, AtMostOne, IsTerminal;
    if outcomes != [] {
      var init, o := outcomes[..|outcomes| - 1], outcomes[|outcomes| - 1];
      ListGrowth(cs, init);
      StepGrowth(After(cs, init), o);
      StepLast(After(cs, init), o);
      forall ty | ty in {ConditionType.Terminal, Recoverable} && AtMostOne(cs, ty)
        ensures AtMostOne(After(cs, outcomes), ty)
      {
        StepKeepsUnique(After(cs, init), o, ty);
      }
      GrowsStep(cs, outcomes, ConditionType.Terminal);
      GrowsStep(cs, outcomes, Recoverable);
    }
  }

  lemma GrowsStep(cs: seq<CondV>, outcomes: seq<Option<Error>>, ty: ConditionType)
    requires outcomes != []
    ensures var init, o := outcomes[..|outcomes| - 1], outcomes[|outcomes| - 1];
            Grows(cs, outcomes, ty) <==>
            Grows(cs, init, ty) || (LastOf(cs, ty) < 0 && o.Some? && ty == Needed(o))
  {
  }

  /** The type whose entry an outcome may have to create. */
  function Needed(o: Option<Error>): ConditionType {
    if IsTerminal(o) then ConditionType.Terminal else Recoverable
  }

  lemma StepGrowth(cs: seq<CondV>, o: Option<Error>)
    ensures |Next(cs, o)| == |cs| + if o.Some? && LastOf(cs, Needed(o)) < 0 then 1 else 0
    ensures forall i :: 0 <= i < |cs| ==> SameEntry(Next(cs, o)[i], cs[i])
    ensures forall i :: 0 <= i < |cs| && i != LastOf(cs, ConditionType.Terminal) && i != LastOf(cs, Recoverable)
                        ==> Next(cs, o)[i] == cs[i]
    ensures |cs| < |Next(cs, o)| ==> Next(cs, o)[|cs|].Cond? && Next(cs, o)[|cs|].ctype == Needed(o)
  {
    if !IsTerminal(o) {
      ClearMeaning(cs, ConditionType.Terminal, Recoverable);
    }
    hide LastOf;
  }

  lemma StepLast(cs: seq<CondV>, o: Option<Error>)
    ensures forall ty :: ty in {ConditionType.Terminal, Recoverable} ==>
              LastOf(Next(cs, o), ty)
              == if LastOf(cs, ty) < 0 && o.Some? && ty == Needed(o) then |cs| else LastOf(cs, ty)
  {
    if IsTerminal(o) {
      MarkMeaning(cs, ConditionType.Terminal, MessageOf(o), Recoverable);
    } else {
      ClearMeaning(cs, ConditionType.Terminal, Recoverable);
      var cleared := Clear(cs, ConditionType.Terminal);
      if o.Some? {
        MarkMeaning(cleared, Recoverable, MessageOf(o), ConditionType.Terminal);
      } else {
        ClearMeaning(cleared, Recoverable, ConditionType.Terminal);
      }
    }
  }

  lemma StepKeepsUnique(cs: seq<CondV>, o: Option<Error>, ty: ConditionType)
    requires AtMostOne(cs, ty)
    ensures AtMostOne(Next(cs, o), ty)
  {
    StepGrowth(cs, o);
    var out := Next(cs, o);
    assert forall i :: 0 <= i < |cs| ==>
                         (out[i].Cond? <==> cs[i].Cond?) && (cs[i].Cond? ==> out[i].ctype == cs[i].ctype);
    if |cs| < |out| && ty == Needed(o) {
      assert forall i :: 0 <= i < |cs| ==> !(cs[i].Cond? && cs[i].ctype == ty);
    }
  }

  // ---- The error a caller sees ----

  /** `onError` answers with the Terminal sentinel when the updated list has a True
      Terminal entry, and with the error itself otherwise. */
  function Reported(cs: seq<CondV>, err: Error): Error {
    if HasTrue(Next(cs, Some(err)), ConditionType.Terminal) then TERMINAL else err
  }

  /** So the sentinel means "terminal" exactly when no hidden duplicate is True. */
  lemma ReportedIsTerminal(cs: seq<CondV>, err: Error)
    requires err != TERMINAL
    ensures Reported(cs, err)
            == (if IsTerminal(Some(err)) || Shadowed(cs, ConditionType.Terminal) then TERMINAL else err)
    ensures AtMostOne(cs, ConditionType.Terminal) ==> (Reported(cs, err) == TERMINAL <==> IsTerminal(Some(err)))
  {
    StepMeaning(cs, Some(err));
    TrueIsShadowedOrEffective(cs, ConditionType.Terminal);
    TrueIsShadowedOrEffective(Next(cs, Some(err)), ConditionType.Terminal);
  }

  // ---- A step entry by entry ----

  ghost predicate Has(cs: seq<CondV>, ty: ConditionType) {
    exists i :: 0 <= i < |cs| && cs[i].Cond? && cs[i].ctype == ty
  }

  /** Entry `i` is the last one of its type. */
  ghost predicate IsLast(cs: seq<CondV>, i: nat, ty: ConditionType) {
    && i < |cs| && cs[i].Cond? && cs[i].ctype == ty
    && forall j :: i < j < |cs| ==> !(cs[j].Cond? && cs[j].ctype == ty)
  }

  /** An entry is True and a later one has its type. */
  ghost predicate Hidden(cs: seq<CondV>, ty: ConditionType) {
    exists i, j :: 0 <= i < j < |cs| && cs[i].Cond? && cs[i].ctype == ty && cs[i].status == True
                   && cs[j].Cond? && cs[j].ctype == ty
  }

  /** An independent definition of the step: which errors are terminal and what they say, by
      the error's own fields; the last Terminal entry tells whether this one is; unless it
      is, the last Recoverable entry tells whether there is an error; every other entry
      stays; and an entry that is needed and missing is added at the end. */
  ghost predicate Records(before: seq<CondV>, err: Option<Error>, after: seq<CondV>) {
    var named := err.Some?
                 && (err.value.wrapsTerminal || err.value.sentinel in {SecretTypeNotSupported, SecretNotFound});
    var terminal := named || (err.Some? && err.value.api.Some? && err.value.api.value.code == "ValidationException");
    var text := if err.None? then None
                else if named || err.value.api.None? then Some(err.value.text)
                else Some(err.value.api.value.text);
    var needed := if terminal then ConditionType.Terminal else Recoverable;
    && |after| == |before| + (if err.Some? && !Has(before, needed) then 1 else 0)
    && (|after| > |before| ==> after[|before|] == Cond(needed, True, text, None, None))
    && forall i :: 0 <= i < |before| ==>
                     after[i] == if IsLast(before, i, ConditionType.Terminal)
                                 then before[i].(status := if terminal then True else False,
                                                 message := if terminal then text else None)
                                 else if IsLast(before, i, Recoverable) && !terminal
                                 then before[i].(status := if err.Some? then True else False, message := text)
                                 else before[i]
  }

  lemma LastOfIs(cs: seq<CondV>, ty: ConditionType)
    ensures forall i: nat :: IsLast(cs, i, ty) <==> i == LastOf(cs, ty)
    ensures Has(cs, ty) <==> LastOf(cs, ty) >= 0
    ensures Hidden(cs, ty) <==> Shadowed(cs, ty)
  {
    if Hidden(cs, ty) {
      var i, j :| 0 <= i < j < |cs| && cs[i].Cond? && cs[i].ctype == ty && cs[i].status == True
                  && cs[j].Cond? && cs[j].ctype == ty;
      assert TrueAt(cs, i, ty) && j <= LastOf(cs, ty);
    }
    if Shadowed(cs, ty) {
      var i :| 0 <= i < LastOf(cs, ty) && TrueAt(cs, i, ty);
      assert cs[LastOf(cs, ty)].ctype == ty;
    }
  }

  lemma MarkByEntry(cs: seq<CondV>, ty: ConditionType, message: string)
    ensures var out := Mark(cs, ty, message);
            && |out| == |cs| + (if Has(cs, ty) then 0 else 1)
            && (|out| > |cs| ==> out[|cs|] == Cond(ty, True, Some(message), None, None))
            && forall i :: 0 <= i < |cs| ==>
                             out[i] == if IsLast(cs, i, ty) then cs[i].(status := True, message := Some(message))
                                       else cs[i]
  {
    LastOfIs(cs, ty);
  }

  lemma ClearByEntry(cs: seq<CondV>, ty: ConditionType)
    ensures var out := Clear(cs, ty);
            && |out| == |cs|
            && forall i :: 0 <= i < |cs| ==>
                             out[i] == if IsLast(cs, i, ty) then cs[i].(status := False, message := None) else cs[i]
    ensures forall i: nat, other :: IsLast(Clear(cs, ty), i, other) <==> IsLast(cs, i, other)
    ensures forall other :: Has(Clear(cs, ty), other) <==> Has(cs, other)
  {
    LastOfIs(cs, ty);
    var out := Clear(cs, ty);
    forall other ensures Has(out, other) <==> Has(cs, other) {
      assert forall i :: 0 <= i < |cs| ==>
                           (out[i].Cond? <==> cs[i].Cond?) && (cs[i].Cond? ==> out[i].ctype == cs[i].ctype);
    }
  }

  /** The two definitions agree, on every list and every outcome. */
  lemma NextRecords(cs: seq<CondV>, err: Option<Error>)
    ensures Records(cs, err, Next(cs, err))
  {
    if IsTerminal(err) {
      MarkByEntry(cs, ConditionType.Terminal, MessageOf(err));
    } else {
      var cleared := Clear(cs, ConditionType.Terminal);
      ClearByEntry(cs, ConditionType.Terminal);
      if err.Some? {
        MarkByEntry(cleared, Recoverable, MessageOf(err));
      } else {
        ClearByEntry(cleared, Recoverable);
      }
    }
  }

  /** What the caller of `onError` is told, by the error's own fields. */
  lemma ReportedByFields(cs: seq<CondV>, err: Error)
    ensures Reported(cs, err)
            == if || (err.api.Some? && err.api.value.code == "ValidationException") || err.wrapsTerminal
                  || err.sentinel in {SecretTypeNotSupported, SecretNotFound}
                  || Hidden(cs, ConditionType.Terminal)
               then TERMINAL else err
  {
    StepMeaning(cs, Some(err));
    LastOfIs(cs, ConditionType.Terminal);
    TrueIsShadowedOrEffective(Next(cs, Some(err)), ConditionType.Terminal);
  }

  /** `onSuccess` finds something to update iff there is an entry of one of the three types. */
  lemma TrackedIs(cs: seq<CondV>, err: Option<Error>)
    ensures Tracked(cs, err)
            <==> err.Some? || Has(cs, ConditionType.Terminal) || Has(cs, Recoverable) || Has(cs, ResourceSynced)
  {
    LastOfIs(cs, ConditionType.Terminal);
    LastOfIs(cs, Recoverable);
    LastOfIs(cs, ResourceSynced);
  }
}
