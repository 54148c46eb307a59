/** The flat field list of a stream entry, and what kind of entry it makes. */
module StreamFields {
  /** Even positions are keys, odd ones their values; a later pair replaces an earlier one, and a last key without a
      value is ignored. */
  function Fields(flat: seq<string>): map<string, string> {
    if |flat| < 2 then map[]
    else if |flat| % 2 == 1 then Fields(flat[..|flat| - 1])
    else Fields(flat[..|flat| - 2])[flat[|flat| - 2] := flat[|flat| - 1]]
  }

  method ParseStreamFields(flat: seq<string>) returns (fields: map<string, string>)
    ensures fields == Fields(flat)
  {
    fields := map[];
    var i := 0;
    while i < |flat| - 1
      invariant 0 <= i <= |flat| && i % 2 == 0
      invariant fields == Fields(flat[..i])
    {
      assert flat[..i + 2][..i] == flat[..i];
      fields := fields[flat[i] := flat[i + 1]];
      i := i + 2;
    }
    if i == |flat| {
      assert flat[..i] == flat;
    } else {
      assert i == |flat| - 1;
    }
  }

  function Flatten(pairs: seq<(string, string)>): seq<string> {
    if pairs == [] then [] else Flatten(pairs[..|pairs| - 1]) + [pairs[|pairs| - 1].0, pairs[|pairs| - 1].1]
  }

  /** Reading back what a producer wrote: the last value written under each key, and no other key. */
  lemma {:induction false} FieldsOfFlatten(pairs: seq<(string, string)>)
    ensures |Flatten(pairs)| == 2 * |pairs|
    ensures forall k :: k in Fields(Flatten(pairs)) <==> exists i :: 0 <= i < |pairs| && pairs[i].0 == k
    ensures forall i :: 0 <= i < |pairs| && (forall j :: i < j < |pairs| ==> pairs[j].0 != pairs[i].0) ==>
              pairs[i].0 in Fields(Flatten(pairs)) && Fields(Flatten(pairs))[pairs[i].0] == pairs[i].1
  {
    if pairs != [] {
      var front, last := pairs[..|pairs| - 1], pairs[|pairs| - 1];
      FieldsOfFlatten(front);
      assert Flatten(pairs)[..|Flatten(pairs)| - 2] == Flatten(front);
      assert Fields(Flatten(pairs)) == Fields(Flatten(front))[last.0 := last.1];
      forall k ensures k in Fields(Flatten(pairs)) <==> exists i :: 0 <= i < |pairs| && pairs[i].0 == k {
        if k == last.0 { assert pairs[|pairs| - 1].0 == k; }
        if i :| 0 <= i < |front| && front[i].0 == k { assert pairs[i].0 == k; }
      }
      forall i | 0 <= i < |pairs| && (forall j :: i < j < |pairs| ==> pairs[j].0 != pairs[i].0)
        ensures pairs[i].0 in Fields(Flatten(pairs)) && Fields(Flatten(pairs))[pairs[i].0] == pairs[i].1
      {
        if i < |front| {
          assert pairs[|pairs| - 1].0 != pairs[i].0;
          assert forall j :: i < j < |front| ==> front[j].0 != front[i].0;
          assert front[i] == pairs[i];
        }
      }
    }
  }

  lemma {:induction false} FlatLength(pairs: seq<(string, string)>)
    ensures |Flatten(pairs)| == 2 * |pairs|
  {
    if pairs != [] { FlatLength(pairs[..|pairs| - 1]); }
  }

  /** One more string at the end, a key without a value, changes nothing. */
  lemma LastKeyIgnored(pairs: seq<(string, string)>, key: string)
    ensures Fields(Flatten(pairs) + [key]) == Fields(Flatten(pairs))
  {
    FlatLength(pairs);
    assert (Flatten(pairs) + [key])[..|Flatten(pairs)|] == Flatten(pairs);
  }

  /** What decoding and validating a payload comes to. */
  datatype Decoded = InvalidJson | UnsupportedVersion | InvalidSchema | Accepted

  datatype Kind = Shutdown | Malformed | Rejected(why: Decoded) | Valid

  /** An empty payload counts as missing. */
  function Classify(flat: seq<string>, decode: string -> Decoded): Kind {
    var fields := Fields(flat);
    if "__shutdown__" in fields && fields["__shutdown__"] == "1" then Shutdown
    else if "payload" !in fields || fields["payload"] == "" then Malformed
    else if decode(fields["payload"]) == Accepted then Valid
    else Rejected(decode(fields["payload"]))
  }
}
