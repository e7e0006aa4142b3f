/** Browser runs as the phase-anchor check expects them: whatever the voices and however the two processes' lines
    interleave, the run in which the page sees the native voices arrive is supported, and the one in which they were
    there before is not. */
module PhaseAnchorRuns {
  import opened Commons
  import opened PhaseAnchor

  /** What the parent does, event by event: five native voices while the platform initialises, then the managed ones. */
  function ParentKind(voices: seq<string>, i: nat): Kind
    requires |voices| == ALL_VOICES && i < 64
  {
    if i == 0 then SapiBegin
    else if i <= 5 then SendAdded(voices[i - 1])
    else if i == 6 then SapiEnd
    else if i == 7 then VoicesParsed(Some(MANAGED_VOICES))
    else if i == 8 then BatchBegin(MANAGED_VOICES)
    else if i <= 61 then SendAdded(voices[i - 4])
    else if i == 62 then BatchEnd
    else Snapshot(ALL_VOICES)
  }

  function ParentRun(voices: seq<string>): (run: seq<Event>)
    requires |voices| == ALL_VOICES
    ensures |run| == 64 && forall i | 0 <= i < 64 :: run[i] == Event(Parent, i, ParentKind(voices, i))
    ensures Increasing(run)
  {
    seq(64, i requires 0 <= i < 64 => Event(Parent, i, ParentKind(voices, i)))
  }

  /** What the content process does when the page asks before the first voice, after the native ones and at the end. */
  function ContentKind(voices: seq<string>, ctx: nat, i: nat): Kind
    requires |voices| == ALL_VOICES && i < 62
  {
    if i == 0 then GetVoices(ctx, 0, 0, 1)
    else if i <= 5 then RecvAdd(voices[i - 1])
    else if i == 6 then GetVoices(ctx, NATIVE_VOICES, NATIVE_VOICES, 0)
    else if i <= 59 then RecvAdd(voices[i - 2])
    else if i == 60 then InitialVoices(ALL_VOICES)
    else GetVoices(ctx, ALL_VOICES, ALL_VOICES, 0)
  }

  function ContentRun(voices: seq<string>, ctx: nat): (run: seq<Event>)
    requires |voices| == ALL_VOICES
    ensures |run| == 62 && forall i | 0 <= i < 62 :: run[i] == Event(Content, i, ContentKind(voices, ctx, i))
    ensures Increasing(run)
  {
    seq(62, i requires 0 <= i < 62 => Event(Content, i, ContentKind(voices, ctx, i)))
  }

  /** And when the page asks only after the native voices, and at the end. */
  function LateKind(voices: seq<string>, ctx: nat, i: nat): Kind
    requires |voices| == ALL_VOICES && i < 61
  {
    if i < 5 then RecvAdd(voices[i])
    else if i == 5 then GetVoices(ctx, NATIVE_VOICES, NATIVE_VOICES, 1)
    else if i <= 58 then RecvAdd(voices[i - 1])
    else if i == 59 then InitialVoices(ALL_VOICES)
    else GetVoices(ctx, ALL_VOICES, ALL_VOICES, 0)
  }

  function LateRun(voices: seq<string>, ctx: nat): (run: seq<Event>)
    requires |voices| == ALL_VOICES
    ensures |run| == 61 && forall i | 0 <= i < 61 :: run[i] == Event(Content, i, LateKind(voices, ctx, i))
    ensures Increasing(run)
  {
    seq(61, i requires 0 <= i < 61 => Event(Content, i, LateKind(voices, ctx, i)))
  }

  // ---- what is kept of a run ---------------------------------------------

  lemma {:induction false} SameIncreasing(a: seq<Event>, b: seq<Event>)
    requires Increasing(a) && Increasing(b) && forall e :: e in a <==> e in b
    ensures a == b
  {
    if a == [] || b == [] {
      NothingIn(a, b);
      NothingIn(b, a);
    } else {
      FirstIsLeast(a, b[0]);
      FirstIsLeast(b, a[0]);
      assert a[0] in b && b[0] in a;
      var i :| 0 <= i < |b| && b[i] == a[0];
      assert a[0] == b[0];
      TailMembers(a);
      TailMembers(b);
      SameIncreasing(a[1..], b[1..]);
    }
  }

  lemma NothingIn(a: seq<Event>, b: seq<Event>)
    requires forall e :: e in a <==> e in b
    ensures a == [] ==> b == []
  {
    if b != [] { assert b[0] in b; }
  }

  lemma FirstIsLeast(a: seq<Event>, e: Event)
    requires Increasing(a) && e in a
    ensures a[0].Event? && a[0].number <= e.number
  {
  }

  lemma TailMembers(a: seq<Event>)
    requires Increasing(a) && a != []
    ensures Increasing(a[1..]) && forall e :: e in a[1..] <==> e in a && e != a[0]
  {
  }

  lemma KeptIs(run: seq<Event>, keep: Event -> bool, kept: seq<Event>)
    requires Increasing(run) && Increasing(kept)
    requires forall e | e in kept :: e in run && keep(e)
    requires forall e | e in run && keep(e) :: e in kept
    ensures Keep(run, keep) == kept
  {
    KeepIsIncreasing(run, keep);
    SameIncreasing(Keep(run, keep), kept);
  }

  /** What is kept stands at these places. */
  lemma KeptAt(run: seq<Event>, keep: Event -> bool, place: nat -> nat, back: nat -> int, n: nat) returns (kept: seq<Event>)
    requires Increasing(run)
    requires forall i | 0 <= i < n :: place(i) < |run| && keep(run[place(i)])
    requires forall i, j | 0 <= i < j < n :: place(i) < place(j)
    requires forall j | 0 <= j < |run| && keep(run[j]) :: 0 <= back(j) < n && place(back(j)) == j
    ensures kept == Keep(run, keep) && |kept| == n && forall i | 0 <= i < n :: kept[i] == run[place(i)]
  {
    kept := seq(n, i requires 0 <= i < n => run[place(i)]);
    forall e | e in run && keep(e)
      ensures e in kept
    {
      var j :| 0 <= j < |run| && run[j] == e;
      assert kept[back(j)] == e;
    }
    KeptIs(run, keep, kept);
  }

  lemma OneKept(run: seq<Event>, keep: Event -> bool, i: nat)
    requires Increasing(run) && i < |run| && keep(run[i])
    requires forall j | 0 <= j < |run| && j != i :: !keep(run[j])
    ensures Keep(run, keep) == [run[i]]
  {
    KeptIs(run, keep, [run[i]]);
  }

  lemma SortedIs(run: seq<Event>)
    requires Increasing(run)
    ensures Sorted(run) == run
  {
    SortedIsIncreasing(run);
    SameIncreasing(Sorted(run), run);
  }

  // ---- the parent --------------------------------------------------------

  function Natives(voices: seq<string>): set<string>
    requires |voices| == ALL_VOICES
  {
    Members(voices[..NATIVE_VOICES])
  }

  function Managed(voices: seq<string>): set<string>
    requires |voices| == ALL_VOICES
  {
    Members(voices[NATIVE_VOICES..])
  }

  predicate DistinctVoices(voices: seq<string>) {
    && |voices| == ALL_VOICES && (forall h | h in voices :: IsHash(h))
    && forall i, j | 0 <= i < j < |voices| :: voices[i] != voices[j]
  }

  lemma {:induction false} MembersCount(hashes: seq<string>)
    requires forall i, j | 0 <= i < j < |hashes| :: hashes[i] != hashes[j]
    ensures |Members(hashes)| == |hashes|
  {
    if hashes != [] {
      var rest := hashes[1..];
      assert forall i | 0 <= i < |rest| :: rest[i] == hashes[i + 1];
      MembersCount(rest);
      assert hashes == [hashes[0]] + rest;
      assert hashes[0] !in Members(rest);
      assert Members(hashes) == {hashes[0]} + Members(rest);
    } else {
      assert Members(hashes) == {};
    }
  }

  lemma VoicesCount(voices: seq<string>)
    requires DistinctVoices(voices)
    ensures |Managed(voices)| == MANAGED_VOICES && |Natives(voices)| == NATIVE_VOICES
    ensures Natives(voices) + Managed(voices) == Members(voices) && |Members(voices)| == ALL_VOICES
  {
    MembersCount(voices);
    MembersCount(voices[..NATIVE_VOICES]);
    MembersCount(voices[NATIVE_VOICES..]);
    assert voices == voices[..NATIVE_VOICES] + voices[NATIVE_VOICES..];
  }

  /** These events bring the voices in their order. */
  predicate Brings(adds: seq<Event>, voices: seq<string>) {
    |adds| == |voices| && forall i | 0 <= i < |adds| :: (IsAdd(adds[i]) || IsSend(adds[i])) && HashOf(adds[i]) == voices[i]
  }

  lemma BroughtHashes(adds: seq<Event>, voices: seq<string>)
    requires Brings(adds, voices)
    ensures Hashes(adds) == Members(voices)
  {
    forall h | h in voices
      ensures h in Hashes(adds)
    {
      var i :| 0 <= i < |voices| && voices[i] == h;
      assert adds[i] in adds;
    }
  }

  lemma BroughtInOrder(adds: seq<Event>, voices: seq<string>)
    requires Brings(adds, voices) && |voices| == ALL_VOICES
    ensures NativeThenManaged(adds, Managed(voices), Natives(voices))
  {
    BroughtHashes(adds[..NATIVE_VOICES], voices[..NATIVE_VOICES]);
    BroughtHashes(adds[NATIVE_VOICES..], voices[NATIVE_VOICES..]);
  }

  function SentAt(i: nat): nat { if i < 5 then i + 1 else i + 4 }

  function SendOf(at: nat): int { if at <= 5 then at - 1 else at - 4 }

  lemma ParentSendsStand(voices: seq<string>)
    requires |voices| == ALL_VOICES
    ensures forall i | 0 <= i < ALL_VOICES ::
              SentAt(i) < 64 && ParentRun(voices)[SentAt(i)] == Event(Parent, SentAt(i), SendAdded(voices[i]))
  {
    hide ParentRun, Increasing;
  }

  lemma OnlyParentSends(voices: seq<string>)
    requires |voices| == ALL_VOICES
    ensures forall j | 0 <= j < 64 && IsSend(ParentRun(voices)[j]) :: 0 <= SendOf(j) < ALL_VOICES && SentAt(SendOf(j)) == j
  {
    hide ParentRun, Increasing;
  }

  lemma ParentSends(voices: seq<string>) returns (kept: seq<Event>)
    requires |voices| == ALL_VOICES
    ensures kept == Keep(ParentRun(voices), IsSend) && Brings(kept, voices)
    ensures forall i | 0 <= i < ALL_VOICES :: At(kept[i]) == SentAt(i)
  {
    hide ParentRun, ParentKind, Keep, Increasing;
    ParentSendsStand(voices);
    OnlyParentSends(voices);
    kept := KeptAt(ParentRun(voices), IsSend, SentAt, SendOf, ALL_VOICES);
  }

  lemma ParentMarks(voices: seq<string>)
    requires |voices| == ALL_VOICES
    ensures var run := ParentRun(voices);
            Keep(run, IsSapiBegin) == [run[0]] && Keep(run, IsSapiEnd) == [run[6]] && Keep(run, IsParsed) == [run[7]]
  {
    hide ParentRun, Keep, Increasing;
    var run := ParentRun(voices);
    OneKept(run, IsSapiBegin, 0);
    OneKept(run, IsSapiEnd, 6);
    OneKept(run, IsParsed, 7);
  }

  lemma BatchMarks(voices: seq<string>)
    requires |voices| == ALL_VOICES
    ensures var run := ParentRun(voices);
            Keep(run, IsBatchBegin) == [run[8]] && Keep(run, IsBatchEnd) == [run[62]] && Keep(run, IsSnapshot) == [run[63]]
  {
    hide ParentRun, Keep, Increasing;
    var run := ParentRun(voices);
    OneKept(run, IsBatchBegin, 8);
    OneKept(run, IsBatchEnd, 62);
    OneKept(run, IsSnapshot, 63);
  }

  lemma ParentFits(voices: seq<string>)
    requires DistinctVoices(voices)
    ensures ParentInOrder(ParentRun(voices), Managed(voices), Natives(voices))
  {
    hide Keep, NativeThenManaged, Members, Hashes, DistinctVoices;
    VoicesAll(voices);
    VoicesCount(voices);
    ParentMarks(voices);
    BatchMarks(voices);
    var sends := ParentSends(voices);
    BroughtInOrder(sends, voices);
    SetOrder(Natives(voices), Managed(voices));
  }

  lemma SetOrder(a: set<string>, b: set<string>)
    ensures a + b == b + a
  {
  }

  lemma VoicesAll(voices: seq<string>)
    requires DistinctVoices(voices)
    ensures |voices| == ALL_VOICES
  {
  }

  // ---- the content process -----------------------------------------------

  function ReceivedAt(i: nat): nat { if i < 5 then i + 1 else i + 2 }

  function AddOf(at: nat): int { if at <= 5 then at - 1 else at - 2 }

  function AskedAt(i: nat): nat { if i == 0 then 0 else if i == 1 then 6 else 61 }

  function AskOf(at: nat): int { if at == 0 then 0 else if at == 6 then 1 else 2 }

  lemma ContentAddsStand(voices: seq<string>, ctx: nat)
    requires |voices| == ALL_VOICES
    ensures forall i | 0 <= i < ALL_VOICES ::
              ReceivedAt(i) < 62 && ContentRun(voices, ctx)[ReceivedAt(i)] == Event(Content, ReceivedAt(i), RecvAdd(voices[i]))
  {
    hide ContentRun, Increasing;
  }

  lemma OnlyContentAdds(voices: seq<string>, ctx: nat)
    requires |voices| == ALL_VOICES
    ensures forall j | 0 <= j < 62 && IsAdd(ContentRun(voices, ctx)[j]) :: 0 <= AddOf(j) < ALL_VOICES && ReceivedAt(AddOf(j)) == j
  {
    hide ContentRun, Increasing;
  }

  lemma ContentAdds(voices: seq<string>, ctx: nat) returns (kept: seq<Event>)
    requires |voices| == ALL_VOICES
    ensures kept == Keep(ContentRun(voices, ctx), IsAdd) && Brings(kept, voices)
    ensures forall i | 0 <= i < ALL_VOICES :: At(kept[i]) == ReceivedAt(i)
  {
    hide ContentRun, ContentKind, Keep, Increasing;
    ContentAddsStand(voices, ctx);
    OnlyContentAdds(voices, ctx);
    kept := KeptAt(ContentRun(voices, ctx), IsAdd, ReceivedAt, AddOf, ALL_VOICES);
  }

  lemma ContentMarks(voices: seq<string>, ctx: nat)
    requires |voices| == ALL_VOICES
    ensures var run := ContentRun(voices, ctx);
            Keep(run, IsQuery) == [run[0], run[6], run[61]] && Keep(run, IsInitial) == [run[60]]
  {
    hide ContentRun, Keep, Increasing;
    var run := ContentRun(voices, ctx);
    var queries := KeptAt(run, IsQuery, AskedAt, AskOf, 3);
    OneKept(run, IsInitial, 60);
  }

  function LateAt(i: nat): nat { if i < 5 then i else i + 1 }

  function LateOf(at: nat): int { if at < 5 then at else at - 1 }

  lemma LateAddsStand(voices: seq<string>, ctx: nat)
    requires |voices| == ALL_VOICES
    ensures forall i | 0 <= i < ALL_VOICES ::
              LateAt(i) < 61 && LateRun(voices, ctx)[LateAt(i)] == Event(Content, LateAt(i), RecvAdd(voices[i]))
  {
    hide LateRun, Increasing;
  }

  lemma OnlyLateAdds(voices: seq<string>, ctx: nat)
    requires |voices| == ALL_VOICES
    ensures forall j | 0 <= j < 61 && IsAdd(LateRun(voices, ctx)[j]) :: 0 <= LateOf(j) < ALL_VOICES && LateAt(LateOf(j)) == j
  {
    hide LateRun, Increasing;
  }

  lemma LateAdds(voices: seq<string>, ctx: nat) returns (kept: seq<Event>)
    requires |voices| == ALL_VOICES
    ensures kept == Keep(LateRun(voices, ctx), IsAdd) && Brings(kept, voices)
    ensures forall i | 0 <= i < ALL_VOICES :: At(kept[i]) == LateAt(i)
  {
    hide LateRun, LateKind, Keep, Increasing;
    LateAddsStand(voices, ctx);
    OnlyLateAdds(voices, ctx);
    kept := KeptAt(LateRun(voices, ctx), IsAdd, LateAt, LateOf, ALL_VOICES);
  }

  lemma LateMarks(voices: seq<string>, ctx: nat)
    requires |voices| == ALL_VOICES
    ensures var run := LateRun(voices, ctx); Keep(run, IsQuery) == [run[5], run[60]] && Keep(run, IsInitial) == [run[59]]
  {
    hide LateRun, Keep, Increasing;
    var run := LateRun(voices, ctx);
    var queries := KeptAt(run, IsQuery, i => if i == 0 then 5 else 60, at => if at == 5 then 0 else 1, 2);
    OneKept(run, IsInitial, 59);
  }

  // ---- the verdicts ------------------------------------------------------

  /** The page watched for three seconds, in one context, and found every voice in the end. */
  predicate Watched(o: Observation, voices: seq<string>) {
    && o.framed && o.finalAt - o.initialAt >= 3000.0 && o.sameObject && 0 <= o.eventCount <= 2
    && o.final == Inventory(ALL_VOICES, voices)
  }

  /** It found nothing at first and then, in a trusted event, the native voices. */
  predicate SawNativesArrive(o: Observation, voices: seq<string>)
    requires |voices| == ALL_VOICES
  {
    && Watched(o, voices) && o.initial == Inventory(0, []) && o.eventCount >= 1 && o.first.Some?
    && o.initialAt <= o.first.value.at <= o.finalAt && o.first.value.isTrusted && o.first.value.targetIsSynth
    && o.first.value.inventory == Inventory(NATIVE_VOICES, voices[..NATIVE_VOICES])
  }

  /** It found the native voices from the start, and no event came. */
  predicate SawNativesThere(o: Observation, voices: seq<string>)
    requires |voices| == ALL_VOICES
  {
    Watched(o, voices) && o.initial == Inventory(NATIVE_VOICES, voices[..NATIVE_VOICES]) && o.first.None? && o.eventCount == 0
  }

  lemma VoicesChecked(voices: seq<string>)
    requires DistinctVoices(voices)
    ensures InventoryChecked(Inventory(ALL_VOICES, voices))
    ensures InventoryChecked(Inventory(NATIVE_VOICES, voices[..NATIVE_VOICES])) && InventoryChecked(Inventory(0, []))
    ensures Members(voices[..NATIVE_VOICES]) <= Members(voices) && Members([]) == {}
  {
    hide IsHash;
    assert forall h | h in voices[..NATIVE_VOICES] :: h in voices;
  }

  /** Whatever the voices are and however the lines of the two processes interleave: the run in which the page sees the
      native voices arrive before the managed ones is supported. */
  lemma FaithfulRunIsSupported(voices: seq<string>, ctx: nat, events: seq<Event>, o: Observation)
    requires DistinctVoices(voices) && SawNativesArrive(o, voices)
    requires Select(events, Parent) == ParentRun(voices) && Select(events, Content) == ContentRun(voices, ctx)
    ensures ClassifyPhaseAnchor(events, o, Managed(voices), Natives(voices)) == Some(true)
  {
    hide Keep, Select, Sorted, NativeThenManaged, ParentInOrder, DistinctVoices, InventoryChecked, Hashes, Members;
    VoicesAll(voices);
    VoicesCount(voices);
    VoicesChecked(voices);
    SortedIs(ParentRun(voices));
    SortedIs(ContentRun(voices, ctx));
    ParentFits(voices);
    var adds := ContentAdds(voices, ctx);
    ContentMarks(voices, ctx);
    BroughtInOrder(adds, voices);
    assert Inventories(o) == [o.initial, o.first.value.inventory, o.final];
  }

  /** And the run in which they were there before the page asked is a valid one that is not supported. */
  lemma LatePageIsUnsupported(voices: seq<string>, ctx: nat, events: seq<Event>, o: Observation)
    requires DistinctVoices(voices) && SawNativesThere(o, voices)
    requires Select(events, Parent) == ParentRun(voices) && Select(events, Content) == LateRun(voices, ctx)
    ensures ClassifyPhaseAnchor(events, o, Managed(voices), Natives(voices)) == Some(false)
  {
    hide Keep, Select, Sorted, NativeThenManaged, ParentInOrder, DistinctVoices, InventoryChecked, Hashes, Members;
    VoicesAll(voices);
    VoicesCount(voices);
    VoicesChecked(voices);
    SortedIs(ParentRun(voices));
    SortedIs(LateRun(voices, ctx));
    ParentFits(voices);
    var adds := LateAdds(voices, ctx);
    LateMarks(voices, ctx);
    BroughtInOrder(adds, voices);
    assert Inventories(o) == [o.initial, o.final];
  }
}
