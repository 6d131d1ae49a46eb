/** Whole vertex-shader programs: vs_decode_program (src/xbox_vs.cpp) and its inverse. */
module ShaderProgram {
  import opened ShaderCode

  /** The four words of slot i. */
  function SlotWords(words: seq<nat>, i: nat): (w: seq<nat>)
    requires 4 * i + 4 <= |words|
    ensures |w| == 4
  {
    words[4 * i..4 * i + 4]
  }

  function Limit(count: nat): nat {
    if count < MAX_SLOTS then count else MAX_SLOTS
  }

  /** std::to_string. */
  function Decimal(n: nat): string {
    (if n < 10 then "" else Decimal(n / 10)) + [['0', '1', '2', '3', '4', '5', '6', '7', '8', '9'][n % 10]]
  }

  function SlotError(i: nat, error: string): string {
    "slot " + Decimal(i) + ": " + error
  }

  /** Decodes slots i, i + 1, ... up to the first final one; `done` holds those before i. */
  function DecodeFrom(words: seq<nat>, count: nat, i: nat, done: seq<Slot>): Result<seq<Slot>>
    requires i <= Limit(count) && 4 * Limit(count) <= |words|
    decreases Limit(count) - i
  {
    if i == Limit(count) then Err("final instruction marker missing")
    else
      var r := DecodeSlot(SlotWords(words, i));
      if r.Err? then Err(SlotError(i, r.error))
      else if r.value.final then Ok(done + [r.value])
      else DecodeFrom(words, count, i + 1, done + [r.value])
  }

  /** vs_decode_program on a non-null word array. */
  method DecodeProgram(words: seq<nat>, count: nat) returns (r: Result<seq<Slot>>)
    requires 4 * Limit(count) <= |words|
    ensures r == DecodeFrom(words, count, 0, [])
  {
    hide DecodeSlot;
    var slots: seq<Slot> := [];
    var limit := if count < 136 then count else 136;
    var i := 0;
    while i < limit
      invariant 0 <= i <= limit == Limit(count)
      invariant DecodeFrom(words, count, i, slots) == DecodeFrom(words, count, 0, [])
    {
      var slot := DecodeSlot(words[4 * i..4 * i + 4]);
      if slot.Err? {
        return Err(SlotError(i, slot.error));
      }
      slots := slots + [slot.value];
      if slot.value.final {
        return Ok(slots);
      }
      i := i + 1;
    }
    return Err("final instruction marker missing");
  }

  // ---------------------------------------------------------------------

  /** At most 136 valid slots with the final marker on the last and nowhere else. */
  ghost predicate WellFormed(slots: seq<Slot>) {
    && 0 < |slots| <= MAX_SLOTS
    && (forall i :: 0 <= i < |slots| ==> Valid(slots[i]))
    && (forall i :: 0 <= i < |slots| ==> (slots[i].final <==> i == |slots| - 1))
  }

  ghost predicate Started(slots: seq<Slot>) {
    forall i :: 0 <= i < |slots| ==> Valid(slots[i]) && !slots[i].final
  }

  lemma {:induction false} DecodeFromWellFormed(words: seq<nat>, count: nat, i: nat, done: seq<Slot>)
    requires i <= Limit(count) && 4 * Limit(count) <= |words| && |done| == i && Started(done)
    ensures DecodeFrom(words, count, i, done).Ok? ==> WellFormed(DecodeFrom(words, count, i, done).value)
    decreases Limit(count) - i
  {
    hide DecodeSlot, Valid;
    if i < Limit(count) {
      var r := DecodeSlot(SlotWords(words, i));
      DecodedIsValid(SlotWords(words, i));
      if r.Ok? && !r.value.final {
        DecodeFromWellFormed(words, count, i + 1, done + [r.value]);
      }
    }
  }

  /** Everything the decoder accepts is a well-formed program. */
  lemma AcceptedIsWellFormed(words: seq<nat>, count: nat)
    requires 4 * Limit(count) <= |words|
    ensures DecodeFrom(words, count, 0, []).Ok? ==> WellFormed(DecodeFrom(words, count, 0, []).value)
  {
    DecodeFromWellFormed(words, count, 0, []);
  }

  /** Slot i decodes and is not the final one. */
  predicate Plain(words: seq<nat>, i: nat)
    requires 4 * i + 4 <= |words|
  {
    var r := DecodeSlot(SlotWords(words, i));
    r.Ok? && !r.value.final
  }

  /**
   A program is refused either at its first slot that does not decode, before any final
   slot, and the error names that slot; or because none of its slots is final.
   */
  lemma {:induction false} FirstBadSlotIsNamed(words: seq<nat>, count: nat, i: nat, k: nat, done: seq<Slot>)
    requires i <= k <= Limit(count) && 4 * Limit(count) <= |words| && forall j :: i <= j < k ==> Plain(words, j)
    ensures k == Limit(count) ==> DecodeFrom(words, count, i, done) == Err("final instruction marker missing")
    ensures k < Limit(count) && DecodeSlot(SlotWords(words, k)).Err? ==>
              DecodeFrom(words, count, i, done) == Err(SlotError(k, DecodeSlot(SlotWords(words, k)).error))
    ensures k < Limit(count) && DecodeSlot(SlotWords(words, k)).Ok? && DecodeSlot(SlotWords(words, k)).value.final ==>
              DecodeFrom(words, count, i, done).Ok?
    decreases k - i
  {
    hide DecodeSlot, SlotError;
    if i < k {
      assert Plain(words, i);
      FirstBadSlotIsNamed(words, count, i + 1, k, done + [DecodeSlot(SlotWords(words, i)).value]);
    }
  }

  // ---------------------------------------------------------------------

  function EncodeAll(slots: seq<Slot>): (w: seq<nat>)
    ensures |w| == 4 * |slots|
  {
    if slots == [] then [] else EncodeAll(slots[..|slots| - 1]) + Encode(slots[|slots| - 1])
  }

  lemma {:induction false} EncodedSlot(slots: seq<Slot>, rest: seq<nat>, i: nat)
    requires i < |slots|
    ensures SlotWords(EncodeAll(slots) + rest, i) == Encode(slots[i])
    decreases |slots|
  {
    hide Encode;
    var init, last := slots[..|slots| - 1], slots[|slots| - 1];
    if i < |slots| - 1 {
      EncodedSlot(init, Encode(last) + rest, i);
      assert EncodeAll(slots) + rest == EncodeAll(init) + (Encode(last) + rest);
    }
  }

  lemma {:induction false} DecodeEncodedFrom(slots: seq<Slot>, rest: seq<nat>, count: nat, i: nat)
    requires WellFormed(slots) && |slots| <= count && 4 * Limit(count) <= 4 * |slots| + |rest| && i < |slots|
    ensures DecodeFrom(EncodeAll(slots) + rest, count, i, slots[..i]) == Ok(slots)
    decreases |slots| - i
  {
    hide DecodeSlot, Valid, Encode, EncodeAll;
    EncodedSlot(slots, rest, i);
    DecodeInvertsEncode(slots[i]);
    assert slots[..i] + [slots[i]] == slots[..i + 1];
    if i == |slots| - 1 {
      assert slots[..i + 1] == slots;
    } else {
      DecodeEncodedFrom(slots, rest, count, i + 1);
    }
  }

  /** Decoding inverts encoding on every well-formed program, whatever follows it in memory. */
  lemma ProgramRoundTrip(slots: seq<Slot>, rest: seq<nat>, count: nat)
    requires WellFormed(slots) && |slots| <= count && 4 * Limit(count) <= 4 * |slots| + |rest|
    ensures DecodeFrom(EncodeAll(slots) + rest, count, 0, []) == Ok(slots)
  {
    assert slots[..0] == [];
    DecodeEncodedFrom(slots, rest, count, 0);
  }
}
