/** Static configuration: the GATT service and characteristic identifiers and the
    registry that maps a weight slot to the advertised name of its scale. */
module BleConfig {
  import opened Options

  const ServiceUuid: string := "ab49b033-1163-48db-931c-9c2a3002ee1d"
  const UserInfoCharUuid: string := "ab49b033-1163-48db-931c-9c2a3002ee1f"
  const CommandCharUuid: string := "ab49b033-1163-48db-931c-9c2a3002ee1e"
  const WeightDataCharUuid: string := "ab49b033-1163-48db-931c-9c2a3002ee20"

  /** The type `1 | 2 | 3`. */
  type WeightNumber = n: int | 1 <= n <= 3 witness 1

  /** The record `WEIGHT_TARGETS`, keyed by slot. */
  const WeightTargets: map<int, string> :=
    map[1 := "ESP32_Weigh_1", 2 := "ESP32_Weigh_2", 3 := "ESP32_Weigh_3"]

  /** The prefix every configured scale name shares. */
  const TargetPrefix: string := "ESP32_Weigh_"

  /** The decimal digit of a slot number. */
  function SlotDigit(slot: WeightNumber): char
  {
    if slot == 1 then '1' else if slot == 2 then '2' else '3'
  }

  /** `WEIGHT_TARGETS[weightNum]`: `undefined` (None) for a number that is not a key. */
  function TargetFor(slot: int): (t: Option<string>)
    ensures t.Some? <==> 1 <= slot <= 3
    ensures t.Some? ==> t.value == TargetPrefix + [SlotDigit(slot)]
  {
    if slot in WeightTargets then Some(WeightTargets[slot]) else None
  }

  /** Every slot of the type `1 | 2 | 3` has a target, so the `!target` rejection never
      fires for a well-typed slot: each target is a non-empty string. */
  lemma EveryWeightNumberHasTarget(slot: WeightNumber)
    ensures IsTruthyString(TargetFor(slot))
    ensures |TargetFor(slot).value| == |TargetPrefix| + 1
  {
  }

  /** Distinct slots name distinct scales, so a match identifies the slot. */
  lemma TargetsAreDistinct(a: WeightNumber, b: WeightNumber)
    requires a != b
    ensures TargetFor(a).value != TargetFor(b).value
  {
    var ta, tb := TargetFor(a).value, TargetFor(b).value;
    assert ta[|TargetPrefix|] == SlotDigit(a);
    assert tb[|TargetPrefix|] == SlotDigit(b);
  }

  /** The four identifiers are pairwise distinct, so the user-info, command and weight-data
      characteristics can never be confused with each other or with the service. */
  lemma UuidsDistinct()
    ensures ServiceUuid != UserInfoCharUuid && ServiceUuid != CommandCharUuid
    ensures ServiceUuid != WeightDataCharUuid && UserInfoCharUuid != CommandCharUuid
    ensures UserInfoCharUuid != WeightDataCharUuid && CommandCharUuid != WeightDataCharUuid
  {
    assert ServiceUuid[35] == 'd' && UserInfoCharUuid[35] == 'f';
    assert CommandCharUuid[35] == 'e' && WeightDataCharUuid[35] == '0';
  }
}
