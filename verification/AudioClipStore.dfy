/**
 The owner-thread store of decoded clips: generation-tagged slots behind weak handles, with counters kept beside them.
 Seen from outside it is a finite map from the handles it accepts to their clips.
 */
module AudioClipStores {
  import opened Wrappers
  import opened WavDecoder

  const INVALID_INDEX: nat := 0xFFFF_FFFF
  /** How many values a slot's generation takes: every 32-bit value but zero. */
  const GENERATIONS: nat := 0xFFFF_FFFF

  datatype Limits = Limits(maxClips: nat, maxClipBytes: nat, maxTotalBytes: nat)

  const DEFAULT_LIMITS := Limits(2, MAX_DECODED_BYTES, 512 * 1024 * 1024)

  datatype ClipHandle = ClipHandle(index: nat, generation: nat, storeToken: nat)

  datatype StoreError = LimitsInvalid | ClipLimit | Capacity | SlotLimit | HandleInvalid | HandleStale

  datatype Slot = Slot(generation: nat, clip: Option<Clip>)

  function ByteSize(clip: Clip): nat { 4 * |clip.samples| }

  // ---------------------------------------------------------------- generations

  /** The unsigned 32-bit increment that skips zero. */
  function NextGeneration(generation: nat): nat {
    var bumped := (generation + 1) % 0x1_0000_0000;
    if bumped == 0 then (bumped + 1) % 0x1_0000_0000 else bumped
  }

  /** The generation of a slot from which that many clips were removed. */
  function GenerationAfter(removals: nat): nat { 1 + removals % GENERATIONS }

  lemma {:induction false} NextIsAfter(removals: nat)
    ensures NextGeneration(GenerationAfter(removals)) == GenerationAfter(removals + 1)
  {
    var turn, rest := removals / GENERATIONS, removals % GENERATIONS;
    assert removals + 1 == turn * GENERATIONS + (rest + 1);
    if rest + 1 == GENERATIONS {
      assert removals + 1 == (turn + 1) * GENERATIONS;
    }
  }

  lemma GenerationsMatch(earlier: nat, later: nat)
    ensures GenerationAfter(earlier) == GenerationAfter(later) <==> (later - earlier) % GENERATIONS == 0
  {
    var p, q := earlier / GENERATIONS, later / GENERATIONS;
    var e, l := earlier % GENERATIONS, later % GENERATIONS;
    assert later - earlier == (q - p) * GENERATIONS + (l - e);
    if l >= e {
      Remainder(later - earlier, q - p, l - e);
    } else {
      Remainder(later - earlier, q - p - 1, l - e + GENERATIONS);
    }
  }

  lemma Remainder(n: int, quotient: int, rest: int)
    requires n == quotient * GENERATIONS + rest && 0 <= rest < GENERATIONS
    ensures n % GENERATIONS == rest
  {
    var d := n / GENERATIONS - quotient;
    assert n % GENERATIONS + d * GENERATIONS == rest;
  }

  // ---------------------------------------------------------------- the store as a map

  /** The handles accepted through the first n slots, and what they lease. */
  ghost function Contents(slots: seq<Slot>, token: nat, n: nat): map<ClipHandle, Clip>
    requires n <= |slots|
  {
    if n == 0 then map[]
    else if slots[n - 1].clip.None? then Contents(slots, token, n - 1)
    else Contents(slots, token, n - 1)[ClipHandle(n - 1, slots[n - 1].generation, token) := slots[n - 1].clip.value]
  }

  ghost predicate Names(slots: seq<Slot>, token: nat, handle: ClipHandle) {
    && handle.index < |slots| && slots[handle.index].clip.Some? && handle.generation == slots[handle.index].generation
    && handle.storeToken == token
  }

  lemma {:induction false} ContentsAreNamed(slots: seq<Slot>, token: nat, n: nat, handle: ClipHandle)
    requires n <= |slots|
    ensures handle in Contents(slots, token, n) <==> handle.index < n && Names(slots, token, handle)
    ensures handle in Contents(slots, token, n) ==> Contents(slots, token, n)[handle] == slots[handle.index].clip.value
  {
    if n > 0 { ContentsAreNamed(slots, token, n - 1, handle); }
  }

  function Clips(slots: seq<Slot>, n: nat): nat
    requires n <= |slots|
  {
    if n == 0 then 0 else Clips(slots, n - 1) + if slots[n - 1].clip.Some? then 1 else 0
  }

  function Bytes(slots: seq<Slot>, n: nat): nat
    requires n <= |slots|
  {
    if n == 0 then 0 else Bytes(slots, n - 1) + if slots[n - 1].clip.Some? then ByteSize(slots[n - 1].clip.value) else 0
  }

  lemma {:induction false} CountsUpTo(before: seq<Slot>, after: seq<Slot>, n: nat)
    requires n <= |before| && n <= |after| && forall i :: 0 <= i < n ==> before[i].clip == after[i].clip
    ensures Clips(before, n) == Clips(after, n) && Bytes(before, n) == Bytes(after, n)
  {
    if n > 0 { CountsUpTo(before, after, n - 1); }
  }

  /** Filling one vacant slot, read backwards emptying one occupied slot. */
  lemma {:induction false} CountsOfFilling(vacant: seq<Slot>, filled: seq<Slot>, index: nat, n: nat)
    requires index < n <= |vacant| && n <= |filled|
    requires vacant[index].clip.None? && filled[index].clip.Some?
    requires forall i :: 0 <= i < n && i != index ==> vacant[i].clip == filled[i].clip
    ensures Clips(filled, n) == Clips(vacant, n) + 1
    ensures Bytes(filled, n) == Bytes(vacant, n) + ByteSize(filled[index].clip.value)
  {
    if index == n - 1 { CountsUpTo(vacant, filled, n - 1); } else { CountsOfFilling(vacant, filled, index, n - 1); }
  }

  lemma {:induction false} CountsOfPrefix(slots: seq<Slot>, longer: seq<Slot>)
    requires |slots| <= |longer| && forall i :: 0 <= i < |slots| ==> longer[i] == slots[i]
    ensures Clips(longer, |slots|) == Clips(slots, |slots|) && Bytes(longer, |slots|) == Bytes(slots, |slots|)
  {
    CountsUpTo(slots, longer, |slots|);
  }

  /** The clip counter counts the accepted handles. */
  lemma {:induction false} ContentsAreCounted(slots: seq<Slot>, token: nat, n: nat)
    requires n <= |slots|
    ensures |Contents(slots, token, n)| == Clips(slots, n)
  {
    if n > 0 {
      ContentsAreCounted(slots, token, n - 1);
      if slots[n - 1].clip.Some? {
        var last := ClipHandle(n - 1, slots[n - 1].generation, token);
        ContentsAreNamed(slots, token, n - 1, last);
        OneMore(Contents(slots, token, n - 1), last, slots[n - 1].clip.value);
      }
    }
  }

  lemma OneMore(held: map<ClipHandle, Clip>, handle: ClipHandle, clip: Clip)
    requires handle !in held
    ensures |held[handle := clip]| == |held| + 1
  {
    assert held[handle := clip].Keys == held.Keys + {handle};
  }

  lemma {:induction false} NothingCounted(slots: seq<Slot>, n: nat)
    requires n <= |slots| && Clips(slots, n) == 0
    ensures Bytes(slots, n) == 0 && forall i :: 0 <= i < n ==> slots[i].clip.None?
  {
    if n > 0 { NothingCounted(slots, n - 1); }
  }

  /** When one clip is registered the byte counter is its size. */
  lemma {:induction false} OneCounted(slots: seq<Slot>, n: nat, index: nat)
    requires index < n <= |slots| && Clips(slots, n) == 1 && slots[index].clip.Some?
    ensures Bytes(slots, n) == ByteSize(slots[index].clip.value)
  {
    if index == n - 1 {
      NothingCounted(slots, n - 1);
    } else if slots[n - 1].clip.Some? {
      NothingCounted(slots, n - 1);
      assert false;
    } else {
      OneCounted(slots, n - 1, index);
    }
  }

  /** Every slot is occupied when the count says so. */
  lemma {:induction false} FullIsCounted(slots: seq<Slot>, n: nat)
    requires n <= |slots|
    ensures Clips(slots, n) <= n
    ensures Clips(slots, n) == n <==> forall i :: 0 <= i < n ==> slots[i].clip.Some?
  {
    if n > 0 { FullIsCounted(slots, n - 1); }
  }

  /** A handle of a slot's given life is accepted exactly while the slot is occupied and the number of clips removed
      since is a multiple of the number of generations: before they wrap, exactly during that life. */
  lemma {:induction false} AcceptedDuringItsLife(slots: seq<Slot>, removals: seq<nat>, token: nat, index: nat,
                                                 life: nat)
    requires index < |slots| == |removals|
    requires forall i :: 0 <= i < |slots| ==> slots[i].generation == GenerationAfter(removals[i])
    ensures ClipHandle(index, GenerationAfter(life), token) in Contents(slots, token, |slots|) <==>
      slots[index].clip.Some? && (removals[index] - life) % 0xFFFF_FFFF == 0
    ensures life <= removals[index] < life + 0xFFFF_FFFF ==>
      (ClipHandle(index, GenerationAfter(life), token) in Contents(slots, token, |slots|) <==>
        slots[index].clip.Some? && removals[index] == life)
  {
    GenerationsMatch(life, removals[index]);
    ContentsAreNamed(slots, token, |slots|, ClipHandle(index, GenerationAfter(life), token));
  }

  // ---------------------------------------------------------------- the store

  /** Why a clip is refused, from what is registered: the checks in their order. */
  function Refusal(limits: Limits, clips: nat, bytes: nat, size: nat, slotsExhausted: bool): Option<StoreError> {
    if limits.maxClips == 0 || limits.maxClipBytes == 0 || limits.maxTotalBytes == 0 then Some(LimitsInvalid)
    else if size > limits.maxClipBytes then Some(ClipLimit)
    else if clips >= limits.maxClips || bytes + size > limits.maxTotalBytes then Some(Capacity)
    else if slotsExhausted then Some(SlotLimit)
    else None
  }

  class AudioClipStore {
    const limits: Limits
    const token: nat
    var slots: seq<Slot>
    var registeredClips: nat
    var registeredBytes: nat
    /** How many clips each slot has given up. */
    ghost var removals: seq<nat>
    /** The handles accepted and their clips: the store seen from outside. */
    ghost var contents: map<ClipHandle, Clip>

    ghost function Held(): map<ClipHandle, Clip>
      reads this
    {
      contents
    }

    /** The counters are the sums over the occupied slots, and the limits are kept. */
    ghost predicate Sound()
      reads this
    {
      && contents == Contents(slots, token, |slots|) && token != 0 && |slots| <= INVALID_INDEX && |removals| == |slots|
      && (forall i :: 0 <= i < |slots| ==> slots[i].generation == GenerationAfter(removals[i]))
      && registeredClips == Clips(slots, |slots|) <= limits.maxClips
      && registeredBytes == Bytes(slots, |slots|) <= limits.maxTotalBytes
      && (forall i :: 0 <= i < |slots| && slots[i].clip.Some? ==> ByteSize(slots[i].clip.value) <= limits.maxClipBytes)
    }

    /** Soundness, kept folded for those who use the store; ValidIs unfolds it. */
    ghost predicate Valid(layers: nat := 3)
      reads this
      decreases token, layers
    {
      if layers == 0 then Sound() else Valid(layers - 1)
    }

    lemma {:induction false} ValidIs(layers: nat := 3)
      ensures Valid(layers) <==> Sound()
      decreases layers
    {
      if layers > 0 { ValidIs(layers - 1); }
    }

    /** What the counters say of the accepted handles. */
    lemma {:induction false} CountersAgree()
      requires Valid()
      ensures registeredClips == |Held()|
      ensures Held() == map[] ==> registeredBytes == 0
      ensures forall h :: Held().Keys == {h} ==> registeredBytes == ByteSize(Held()[h]) <= limits.maxClipBytes
    {
      ValidIs();
      ContentsAreCounted(slots, token, |slots|);
      if registeredClips == 0 { NothingCounted(slots, |slots|); }
      forall h | Held().Keys == {h} ensures registeredBytes == ByteSize(Held()[h]) <= limits.maxClipBytes {
        assert |Held()| == |Held().Keys| == 1;
        ContentsAreNamed(slots, token, |slots|, h);
        OneCounted(slots, |slots|, h.index);
      }
    }

    constructor (limits: Limits, token: nat)
      requires token != 0
      ensures Valid() && this.limits == limits && this.token == token && Held() == map[] && slots == []
    {
      this.limits, this.token := limits, token;
      slots, registeredClips, registeredBytes, removals, contents := [], 0, 0, [], map[];
      new;
      ValidIs();
    }

    method RegisterClip(clip: Clip) returns (r: Result<ClipHandle, StoreError>)
      requires Valid()
      modifies this
      ensures Valid()
      ensures var refusal := Refusal(limits, |old(Held())|, old(registeredBytes), ByteSize(clip),
                                     |old(Held())| == 0xFFFF_FFFF);
              match r case Err(error) => refusal == Some(error) case Ok(_) => refusal == None
      ensures r.Err? ==> unchanged(this)
      ensures r.Ok? ==> r.value !in old(Held()) && Held() == old(Held())[r.value := clip]
      ensures r.Ok? ==> registeredBytes == old(registeredBytes) + ByteSize(clip)
      ensures r.Ok? ==> |slots| == |old(slots)| + if |old(Held())| == |old(slots)| then 1 else 0
      ensures r.Ok? ==> Issued(r.value, old(removals))
    {
      ValidIs();
      ContentsAreCounted(slots, token, |slots|);
      FullIsCounted(slots, |slots|);
      if limits.maxClips == 0 || limits.maxClipBytes == 0 || limits.maxTotalBytes == 0 { return Err(LimitsInvalid); }
      var bytes := ByteSize(clip);
      if bytes > limits.maxClipBytes { return Err(ClipLimit); }
      if registeredClips >= limits.maxClips
          || bytes > limits.maxTotalBytes - Least(registeredBytes, limits.maxTotalBytes) {
        return Err(Capacity);
      }
      var vacant := FirstVacant();
      if vacant == |slots| && |slots| >= INVALID_INDEX { return Err(SlotLimit); }
      var handle := Occupy(vacant, clip);
      r := Ok(handle);
    }

    /** The handle carries the current generation of its slot, which is new or has kept its removals. */
    ghost predicate Issued(handle: ClipHandle, before: seq<nat>)
      reads this
    {
      && |before| <= |removals| && handle.index < |removals|
      && handle == ClipHandle(handle.index, GenerationAfter(removals[handle.index]), token)
      && forall i :: 0 <= i < |removals| ==> removals[i] == if i < |before| then before[i] else 0
    }

    /** The part of registerClip after its checks. */
    method Occupy(vacant: nat, clip: Clip) returns (handle: ClipHandle)
      requires Valid() && vacant <= |slots| && (vacant == |slots| ==> |slots| < INVALID_INDEX)
      requires vacant < |slots| ==> slots[vacant].clip.None?
      requires registeredClips < limits.maxClips && registeredBytes + ByteSize(clip) <= limits.maxTotalBytes
      requires ByteSize(clip) <= limits.maxClipBytes
      modifies this
      ensures Valid()
      ensures handle !in old(Held()) && Held() == old(Held())[handle := clip]
      ensures registeredBytes == old(registeredBytes) + ByteSize(clip)
      ensures |slots| == |old(slots)| + if vacant == |old(slots)| then 1 else 0
      ensures Issued(handle, old(removals))
    {
      ValidIs();
      if vacant == |slots| {
        Appended(slots, Slot(1, Some(clip)), token);
        slots, removals := slots + [Slot(1, Some(clip))], removals + [0];
      } else {
        ghost var was := slots;
        slots := slots[vacant := slots[vacant].(clip := Some(clip))];
        Registered(was, slots, token, vacant, clip, |slots|);
        CountsOfFilling(was, slots, vacant, |slots|);
      }
      registeredClips, registeredBytes := registeredClips + 1, registeredBytes + ByteSize(clip);
      handle := ClipHandle(vacant, slots[vacant].generation, token);
      contents := contents[handle := clip];
      ValidIs();
    }

    method FirstVacant() returns (vacant: nat)
      ensures vacant <= |slots| && forall i :: 0 <= i < vacant ==> slots[i].clip.Some?
      ensures vacant < |slots| ==> slots[vacant].clip.None?
    {
      vacant := 0;
      while vacant < |slots| && slots[vacant].clip.Some?
        invariant vacant <= |slots| && forall i :: 0 <= i < vacant ==> slots[i].clip.Some?
      {
        vacant := vacant + 1;
      }
    }

    method Lease(handle: ClipHandle) returns (r: Result<Clip, StoreError>)
      requires Valid()
      ensures r.Ok? <==> handle in Held()
      ensures r.Ok? ==> r.value == Held()[handle]
      ensures r == Err(HandleInvalid) <==>
        handle.generation == 0 || handle.storeToken != token || handle.index >= |slots|
    {
      ValidIs();
      ContentsAreNamed(slots, token, |slots|, handle);
      if handle.index == INVALID_INDEX || handle.generation == 0 || handle.storeToken == 0
         || handle.storeToken != token || handle.index >= |slots|
      {
        return Err(HandleInvalid);
      }
      var slot := slots[handle.index];
      if slot.generation != handle.generation || slot.clip.None? { return Err(HandleStale); }
      r := Ok(slot.clip.value);
    }

    method Remove(handle: ClipHandle) returns (r: Result<(), StoreError>)
      requires Valid()
      modifies this
      ensures Valid()
      ensures r.Ok? <==> handle in old(Held())
      ensures r.Err? ==> unchanged(this)
      ensures Held() == old(Held()) - {handle}
      ensures r.Ok? ==> registeredBytes == old(registeredBytes) - ByteSize(old(Held())[handle])
      ensures r.Ok? ==> handle.index < |old(removals)|
      ensures r.Ok? ==> removals == old(removals)[handle.index := old(removals)[handle.index] + 1]
    {
      ValidIs();
      ContentsAreNamed(slots, token, |slots|, handle);
      var leased := Lease(handle);
      if leased.Err? { return Err(leased.error); }
      ghost var was := slots;
      var slot := slots[handle.index];
      NextIsAfter(removals[handle.index]);
      slots := slots[handle.index := Slot(NextGeneration(slot.generation), None)];
      CountsOfFilling(slots, was, handle.index, |slots|);
      Removed(was, slots, token, handle.index, |slots|);
      registeredBytes, registeredClips := registeredBytes - ByteSize(leased.value), registeredClips - 1;
      removals, contents := removals[handle.index := removals[handle.index] + 1], contents - {handle};
      ValidIs();
      r := Ok(());
    }

    /** One clip registered in an empty store and removed again. */
    method Cycle(clip: Clip) returns (handle: ClipHandle)
      requires Valid() && Held() == map[] && registeredBytes == 0 && |removals| <= 1
      requires limits == DEFAULT_LIMITS && ByteSize(clip) <= MAX_DECODED_BYTES
      modifies this
      ensures Valid() && Held() == map[] && registeredBytes == 0
      ensures removals == [(if old(removals) == [] then 0 else old(removals)[0]) + 1]
      ensures handle == ClipHandle(0, GenerationAfter(removals[0] - 1), token)
    {
      ghost var before := removals;
      ValidIs();
      var issued := RegisterClip(clip);
      handle := issued.value;
      ValidIs();
      assert |removals| == 1 && removals[0] == if before == [] then 0 else before[0];
      var removed := Remove(handle);
    }

    /** Generations wrap: once every generation of a slot was used, the first handle is accepted again, for a clip it
        was never issued for. */
    method WrapAround(first: Clip, other: Clip) returns (handle: ClipHandle)
      requires Valid() && slots == [] && limits == DEFAULT_LIMITS
      requires ByteSize(first) <= MAX_DECODED_BYTES && ByteSize(other) <= MAX_DECODED_BYTES
      modifies this
      ensures Valid() && Held() == map[handle := other] && removals == [0xFFFF_FFFF]
      ensures handle == ClipHandle(0, GenerationAfter(0), token)
    {
      ValidIs();
      handle := Cycle(first);
      for cycles := 1 to GENERATIONS
        invariant Valid() && Held() == map[] && registeredBytes == 0 && removals == [cycles]
      {
        var filler := Cycle(other);
      }
      ValidIs();
      var again := RegisterClip(other);
      ValidIs();
      GenerationsMatch(0, GENERATIONS);
    }
  }

  /** Every refusal has its one reason; a clip takes four bytes for each sample. */
  lemma RefusesExactly(limits: Limits, clips: nat, bytes: nat, clip: Clip, full: bool)
    ensures var refusal, size := Refusal(limits, clips, bytes, ByteSize(clip), full), 4 * |clip.samples|;
      var usable := limits.maxClips > 0 && limits.maxClipBytes > 0 && limits.maxTotalBytes > 0;
      var fits := usable && size <= limits.maxClipBytes;
      var room := fits && clips < limits.maxClips && bytes + size <= limits.maxTotalBytes;
      && (refusal == Some(LimitsInvalid) <==> !usable) && (refusal == Some(ClipLimit) <==> usable && !fits)
      && (refusal == Some(Capacity) <==> fits && !room) && (refusal == Some(SlotLimit) <==> room && full)
      && (refusal == None <==> room && !full)
  {
  }

  function Least(a: nat, b: nat): nat { if a < b then a else b }

  lemma {:induction false} SameContents(was: seq<Slot>, now: seq<Slot>, token: nat, n: nat)
    requires n <= |was| && n <= |now| && forall i :: 0 <= i < n ==> now[i] == was[i]
    ensures Contents(now, token, n) == Contents(was, token, n)
  {
    if n > 0 { SameContents(was, now, token, n - 1); }
  }

  /** The accepted handles once one vacant slot is filled. */
  lemma {:induction false} Registered(was: seq<Slot>, now: seq<Slot>, token: nat, index: nat, clip: Clip, n: nat)
    requires index < n <= |was| && n <= |now|
    requires forall i :: 0 <= i < n && i != index ==> now[i] == was[i]
    requires was[index].clip.None? && now[index].clip == Some(clip)
    ensures var handle := ClipHandle(index, now[index].generation, token);
            handle !in Contents(was, token, n) && Contents(now, token, n) == Contents(was, token, n)[handle := clip]
  {
    if index == n - 1 {
      SameContents(was, now, token, n - 1);
      ContentsAreNamed(was, token, n - 1, ClipHandle(index, now[index].generation, token));
    } else {
      Registered(was, now, token, index, clip, n - 1);
    }
  }

  lemma {:induction false} Appended(was: seq<Slot>, slot: Slot, token: nat)
    requires slot.clip.Some?
    ensures var handle := ClipHandle(|was|, slot.generation, token);
            && handle !in Contents(was, token, |was|)
            && Contents(was + [slot], token, |was| + 1) == Contents(was, token, |was|)[handle := slot.clip.value]
    ensures Clips(was + [slot], |was| + 1) == Clips(was, |was|) + 1
    ensures Bytes(was + [slot], |was| + 1) == Bytes(was, |was|) + ByteSize(slot.clip.value)
  {
    ContentsAreNamed(was, token, |was|, ClipHandle(|was|, slot.generation, token));
    SameContents(was, was + [slot], token, |was|);
    CountsOfPrefix(was, was + [slot]);
  }

  /** The accepted handles once one slot is emptied. */
  lemma {:induction false} Removed(was: seq<Slot>, now: seq<Slot>, token: nat, index: nat, n: nat)
    requires index < n <= |was| && n <= |now|
    requires forall i :: 0 <= i < n && i != index ==> now[i] == was[i]
    requires was[index].clip.Some? && now[index].clip.None?
    ensures Contents(now, token, n) == Contents(was, token, n) - {ClipHandle(index, was[index].generation, token)}
  {
    if index == n - 1 {
      SameContents(was, now, token, n - 1);
      ContentsAreNamed(was, token, n - 1, ClipHandle(index, was[index].generation, token));
    } else {
      Removed(was, now, token, index, n - 1);
    }
  }
}
