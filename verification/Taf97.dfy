/**
 TAF97 checkpoints of a whole fabric state: decoding an encoded state gives back exactly that
 state, and accepted bytes are the encoding of the state they decode to.
 */
module Taf97 {
  import opened Wrappers
  import opened Bytes
  import opened Ordering
  import opened Actions
  import opened FabricModel
  import opened FabricInvariant
  import opened FabricRuns
  import opened Taf97Format

  /******* Plans in key order *******/

  ghost predicate Ascends(xs: seq<PlanState>) {
    forall i, j :: 0 <= i < j < |xs| ==> xs[i].id < xs[j].id
  }

  /** The plans from place `i` on, by id. */
  function ById(xs: seq<PlanState>, i: nat): map<u64, PlanState>
    requires Ascends(xs)
  {
    map j | i <= j < |xs| :: xs[j].id := xs[j]
  }

  /** The plans of `done`, then those of `plans` in key order. */
  function OrderedAfter(done: seq<PlanState>, plans: map<u64, PlanState>): seq<PlanState>
    decreases |plans|
  {
    if plans.Keys == {} then done
    else
      var k := Least(plans.Keys);
      assert |plans - {k}| < |plans| by {
        assert (plans - {k}).Keys == plans.Keys - {k};
        assert |plans.Keys - {k}| == |plans.Keys| - 1;
      }
      OrderedAfter(done + [plans[k]], plans - {k})
  }

  /** A `BTreeMap` iterated. */
  function Ordered(plans: map<u64, PlanState>): seq<PlanState> {
    OrderedAfter([], plans)
  }

  ghost predicate KeyedById(plans: map<u64, PlanState>) {
    forall k :: k in plans ==> plans[k].id == k
  }

  lemma AscendsSnoc(done: seq<PlanState>, p: PlanState)
    requires Ascends(done) && forall i :: 0 <= i < |done| ==> done[i].id < p.id
    ensures Ascends(done + [p])
  {
  }

  lemma InById(xs: seq<PlanState>, i: nat, j: nat)
    requires Ascends(xs) && i <= j < |xs|
    ensures xs[j].id in ById(xs, i) && ById(xs, i)[xs[j].id] == xs[j]
  {
  }

  lemma ByIdStep(xs: seq<PlanState>, i: nat)
    requires Ascends(xs) && i < |xs|
    ensures ById(xs, i) == ById(xs, i + 1)[xs[i].id := xs[i]]
    ensures xs[i].id !in ById(xs, i + 1)
  {
    InById(xs, i, i);
    forall j | i < j < |xs|
      ensures xs[j].id in ById(xs, i + 1) && ById(xs, i)[xs[j].id] == ById(xs, i + 1)[xs[j].id] == xs[j]
    {
      InById(xs, i, j);
      InById(xs, i + 1, j);
    }
  }

  lemma LeastById(xs: seq<PlanState>, i: nat)
    requires Ascends(xs) && i < |xs|
    ensures xs[i].id in ById(xs, i) && Least(ById(xs, i).Keys) == xs[i].id
    ensures ById(xs, i) - {xs[i].id} == ById(xs, i + 1)
  {
    ByIdStep(xs, i);
    InById(xs, i, i);
    var k := Least(ById(xs, i).Keys);
    var j :| i <= j < |xs| && xs[j].id == k;
  }

  lemma WithoutLeast(plans: map<u64, PlanState>)
    requires KeyedById(plans) && plans.Keys != {}
    ensures var k := Least(plans.Keys);
            && KeyedById(plans - {k}) && |plans - {k}| == |plans| - 1
            && (forall j :: j in plans - {k} ==> k < j)
            && plans == (plans - {k})[k := plans[k]]
  {
    var k := Least(plans.Keys);
    assert (plans - {k}).Keys == plans.Keys - {k};
  }

  lemma {:induction false} OrderedContents(done: seq<PlanState>, plans: map<u64, PlanState>)
    requires KeyedById(plans) && Ascends(done)
    requires forall i, k :: 0 <= i < |done| && k in plans ==> done[i].id < k
    ensures var xs := OrderedAfter(done, plans);
            && Ascends(xs) && |xs| == |done| + |plans| && xs[..|done|] == done
            && ById(xs, |done|) == plans
    decreases |plans|
  {
    if plans.Keys == {} {
      TakeAll(done);
      assert plans == map[];
    } else {
      var k := Least(plans.Keys);
      var p, rest := plans[k], plans - {k};
      WithoutLeast(plans);
      AscendsSnoc(done, p);
      OrderedContents(done + [p], rest);
      OrderedStep(done, p, rest, OrderedAfter(done + [p], rest));
    }
  }

  lemma OrderedStep(done: seq<PlanState>, p: PlanState, rest: map<u64, PlanState>, xs: seq<PlanState>)
    requires Ascends(xs) && |xs| > |done| && xs[..|done| + 1] == done + [p] && ById(xs, |done| + 1) == rest
    ensures xs[..|done|] == done && ById(xs, |done|) == rest[p.id := p]
  {
    Extends(xs, done, p);
    ByIdStep(xs, |done|);
  }

  lemma {:induction false} OrderedById(xs: seq<PlanState>, i: nat)
    requires Ascends(xs) && i <= |xs|
    ensures OrderedAfter(xs[..i], ById(xs, i)) == xs
    decreases |xs| - i
  {
    if i < |xs| {
      LeastById(xs, i);
      InById(xs, i, i);
      TakeOneMore(xs, i);
      OrderedById(xs, i + 1);
    } else {
      TakeAll(xs);
      assert ById(xs, i).Keys == {};
    }
  }

  /** Iterating a map keyed by id and collecting the plans again gives the same map. */
  lemma OrderedThenById(plans: map<u64, PlanState>)
    requires KeyedById(plans)
    ensures Ascends(Ordered(plans)) && |Ordered(plans)| == |plans| && ById(Ordered(plans), 0) == plans
  {
    OrderedContents([], plans);
  }

  lemma ByIdThenOrdered(xs: seq<PlanState>)
    requires Ascends(xs)
    ensures Ordered(ById(xs, 0)) == xs
  {
    assert xs[..0] == [];
    OrderedById(xs, 0);
  }

  /******* The payload *******/

  /** `n` more plans after those in `done`; ids are positive and ascend. */
  function GetPlans(n: nat, done: seq<PlanState>, s: Bytes): Read<seq<PlanState>>
    decreases n
  {
    if n == 0 then Ok((done, s))
    else
      var (p, s1) :- GetPlan(s);
      var previous := if |done| == 0 then 0 else done[|done| - 1].id;
      if p.id == 0 || p.id <= previous then Err(NonCanonicalEncoding)
      else GetPlans(n - 1, done + [p], s1)
  }

  predicate Positive(xs: seq<PlanState>) {
    forall i :: 0 <= i < |xs| ==> xs[i].id != 0
  }

  lemma {:induction false} PlansReadBack(xs: seq<PlanState>, i: nat, t: Bytes)
    requires Ascends(xs) && Positive(xs) && All(FitsPlan, xs) && i <= |xs|
    ensures GetPlans(|xs| - i, xs[..i], PutFrom(PutPlan, xs, i, t)) == Ok((xs, t))
    decreases |xs| - i
  {
    hide GetPlan, PutPlan, FitsPlan;
    if i < |xs| {
      TakeOneMore(xs, i);
      PlanReadBack(xs[i], PutFrom(PutPlan, xs, i + 1, t));
      PlansReadBack(xs, i + 1, t);
    } else {
      TakeAll(xs);
    }
  }

  lemma LastIsGreatest(done: seq<PlanState>, p: PlanState)
    requires Ascends(done) && (|done| > 0 ==> done[|done| - 1].id < p.id)
    ensures Ascends(done + [p])
  {
    forall i | 0 <= i < |done|
      ensures done[i].id < p.id
    {
      assert i == |done| - 1 || done[i].id < done[|done| - 1].id;
    }
  }

  lemma {:induction false} PlansReadOnly(n: nat, done: seq<PlanState>, s: Bytes)
    requires GetPlans(n, done, s).Ok? && Ascends(done) && Positive(done) && All(FitsPlan, done)
    ensures var (xs, t) := GetPlans(n, done, s).value;
            && |xs| == |done| + n && xs[..|done|] == done
            && Ascends(xs) && Positive(xs) && All(FitsPlan, xs)
            && s == PutFrom(PutPlan, xs, |done|, t)
    decreases n
  {
    hide GetPlan, PutPlan, FitsPlan;
    if n > 0 {
      var (p, s1) := GetPlan(s).value;
      PlanReadOnly(s);
      LastIsGreatest(done, p);
      PlansReadOnly(n - 1, done + [p], s1);
      Extends(GetPlans(n, done, s).value.0, done, p);
    } else {
      TakeAll(done);
    }
  }

  function PutState(nextPlanId: u64, nextActionId: u64, xs: seq<PlanState>): Bytes {
    PutU64(nextPlanId, PutU64(nextActionId, PutU32(|xs|, PutMany(PutPlan, xs, []))))
  }

  function GetState(s: Bytes): Result<FabricState, Error> {
    var (nextPlanId, s1) :- GetU64(s, Truncated);
    var (nextActionId, s2) :- GetU64(s1, Truncated);
    var (n, s3) :- GetU32(s2, Truncated);
    assert GetPlans(n, [], s3).Ok? ==> Ascends(GetPlans(n, [], s3).value.0) by {
      if GetPlans(n, [], s3).Ok? {
        PlansReadOnly(n, [], s3);
      }
    }
    var (xs, s4) :- GetPlans(n, [], s3);
    if s4 != [] then Err(NonCanonicalEncoding)
    else Ok(FabricState(nextPlanId, nextActionId, ById(xs, 0)))
  }

  /** The lengths a checkpoint can write. */
  predicate Encodable(s: FabricState) {
    |s.plans| <= U32_MAX && forall k :: k in s.plans ==> FitsPlan(s.plans[k])
  }

  function Payload(s: FabricState): Bytes {
    PutState(s.nextPlanId, s.nextActionId, Ordered(s.plans))
  }

  ghost predicate WellKeyed(plans: map<u64, PlanState>) {
    KeyedById(plans) && 0 !in plans
  }

  lemma OrderedIsEncodable(s: FabricState)
    requires Encodable(s) && WellKeyed(s.plans)
    ensures var xs := Ordered(s.plans);
            |xs| == |s.plans| && Ascends(xs) && Positive(xs) && All(FitsPlan, xs)
  {
    hide FitsPlan;
    OrderedThenById(s.plans);
    var xs := Ordered(s.plans);
    forall i | 0 <= i < |xs|
      ensures FitsPlan(xs[i]) && xs[i].id != 0
    {
      assert xs[i].id in ById(xs, 0) && ById(xs, 0)[xs[i].id] == xs[i];
    }
  }

  lemma StateReadBack(s: FabricState)
    requires Encodable(s) && WellKeyed(s.plans)
    ensures GetState(Payload(s)) == Ok(s)
  {
    hide PutU64, GetU64, PutU32, GetU32, PutPlan, GetPlan, FitsPlan;
    var xs := Ordered(s.plans);
    OrderedIsEncodable(s);
    OrderedThenById(s.plans);
    assert xs[..0] == [];
    PlansReadBack(xs, 0, []);
  }

  lemma StateReadOnly(b: Bytes)
    requires GetState(b).Ok?
    ensures var s := GetState(b).value;
            Encodable(s) && WellKeyed(s.plans) && b == Payload(s)
  {
    hide PutU64, GetU64, PutU32, GetU32, PutPlan, GetPlan, FitsPlan, GetPlans, Ordered;
    var (_, s1) := GetU64(b, Truncated).value;
    var (_, s2) := GetU64(s1, Truncated).value;
    var (n, s3) := GetU32(s2, Truncated).value;
    PlansReadOnly(n, [], s3);
    var (xs, s4) := GetPlans(n, [], s3).value;
    ByIdThenOrdered(xs);
    PlansById(xs);
  }

  lemma PlansById(xs: seq<PlanState>)
    requires Ascends(xs) && Positive(xs) && All(FitsPlan, xs)
    ensures WellKeyed(ById(xs, 0)) && |ById(xs, 0)| == |xs|
    ensures forall k :: k in ById(xs, 0) ==> FitsPlan(ById(xs, 0)[k])
  {
    hide FitsPlan;
    ByIdThenOrdered(xs);
    OrderedThenById(ById(xs, 0));
  }

  /******* The file *******/

  function PutHeader(minor: u16, payloadLen: nat, t: Bytes): Bytes {
    PutRaw(MAGIC, PutU16(HEADER_LEN, PutU16(MAJOR, PutU16(minor, PutU32(0, PutU64(payloadLen, t))))))
  }

  /** Minor version and payload length. */
  function GetHeader(s: Bytes): (r: Read<(u16, u64)>)
    ensures r.Ok? ==> r.value.0.0 <= MINOR && s == PutHeader(r.value.0.0, r.value.0.1, r.value.1)
    ensures forall minor: u16, n: u64, t {:trigger PutHeader(minor, n, t)} :: minor <= MINOR && s == PutHeader(minor, n, t) ==> r == Ok(((minor, n), t))
  {
    hide PutU16, GetU16, PutU32, GetU32, PutU64, GetU64, PutRaw, GetRaw;
    var (magic, s1) :- GetRaw(6, s, Truncated);
    if magic != MAGIC then Err(InvalidMagic)
    else
      var (headerLen, s2) :- GetU16(s1, Truncated);
      if headerLen != HEADER_LEN then Err(InvalidHeader)
      else
        var (major, s3) :- GetU16(s2, Truncated);
        var (minor, s4) :- GetU16(s3, Truncated);
        if major != MAJOR || minor > MINOR then Err(UnsupportedVersion(major, minor))
        else
          var (flags, s5) :- GetU32(s4, Truncated);
          if flags != 0 then Err(InvalidHeader)
          else
            var (payloadLen, s6) :- GetU64(s5, Truncated);
            Ok(((minor, payloadLen), s6))
  }

  /** A checkpoint with the given minor version in its header. */
  function CheckpointOf(minor: u16, payload: Bytes): Bytes {
    PutHeader(minor, |payload|, payload)
  }

  function Parse(bytes: Bytes): Result<FabricState, Error> {
    if |bytes| < HEADER_LEN then Err(Truncated)
    else
      var (header, _) :- GetHeader(bytes);
      if HEADER_LEN + header.1 > U64_MAX then Err(TooLong)
      else if |bytes| != HEADER_LEN + header.1 then Err(NonCanonicalEncoding)
      else GetState(bytes[HEADER_LEN..])
  }

  ghost function Decode(registry: Registry, bytes: Bytes): Result<FabricState, Error> {
    var s :- Parse(bytes);
    if ValidState(registry, s) then Ok(s) else Err(Rejected)
  }

  lemma HeaderLength(minor: u16, payloadLen: nat, t: Bytes)
    ensures |PutHeader(minor, payloadLen, t)| == HEADER_LEN + |t|
    ensures PutHeader(minor, payloadLen, t)[HEADER_LEN..] == t
  {
    var h1 := Le(8, payloadLen) + t;
    var h2 := Le(4, 0) + h1;
    var h3 := Le(2, minor) + h2;
    var h4 := Le(2, MAJOR) + h3;
    var h5 := Le(2, HEADER_LEN) + h4;
    assert PutHeader(minor, payloadLen, t) == MAGIC + h5;
    assert (MAGIC + h5)[24..] == h5[18..] == h4[16..] == h3[14..] == h2[12..] == h1[8..] == t;
  }

  lemma ParseReadBack(minor: u16, payload: Bytes)
    requires minor <= MINOR && HEADER_LEN + |payload| <= U64_MAX
    ensures Parse(CheckpointOf(minor, payload)) == GetState(payload)
  {
    hide PutHeader, GetHeader, GetState;
    HeaderLength(minor, |payload|, payload);
  }

  lemma ParseReadOnly(bytes: Bytes)
    requires Parse(bytes).Ok?
    ensures HEADER_LEN <= |bytes|
    ensures exists minor: u16 :: minor <= MINOR && bytes == CheckpointOf(minor, bytes[HEADER_LEN..])
    ensures GetState(bytes[HEADER_LEN..]) == Parse(bytes)
  {
    hide PutHeader, GetHeader, GetState;
    var (header, t) := GetHeader(bytes).value;
    HeaderLength(header.0, header.1, t);
    assert bytes == CheckpointOf(header.0, bytes[HEADER_LEN..]);
  }

  /******* Round trips *******/

  /** What `encode_action_fabric_checkpoint` writes. */
  function Encode(s: FabricState): Bytes {
    CheckpointOf(MINOR, Payload(s))
  }

  lemma ValidIsWellKeyed(registry: Registry, s: FabricState)
    requires ValidState(registry, s)
    ensures WellKeyed(s.plans)
  {
    assert forall k :: k in s.plans ==> ValidPlan(registry, k, s.plans[k]);
  }

  /** Decoding an encoded state gives back exactly that state, whichever accepted minor version the header carries. */
  lemma DecodeOfEncode(registry: Registry, s: FabricState, minor: u16)
    requires ValidState(registry, s) && Encodable(s) && minor <= MINOR
    requires HEADER_LEN + |Payload(s)| <= U64_MAX
    ensures Decode(registry, CheckpointOf(minor, Payload(s))) == Ok(s)
    ensures Decode(registry, Encode(s)) == Ok(s)
  {
    hide GetState, Payload, ValidState, Encodable;
    ValidIsWellKeyed(registry, s);
    StateReadBack(s);
    ParseReadBack(minor, Payload(s));
    ParseReadBack(MINOR, Payload(s));
  }

  /**
   Accepted bytes are the encoding of the state they decode to, up to the minor version in
   bytes 10 and 11 of the header; with minor 4 they are that encoding.
   */
  lemma EncodeOfDecode(registry: Registry, bytes: Bytes)
    requires Decode(registry, bytes).Ok?
    ensures var s := Decode(registry, bytes).value;
            && ValidState(registry, s) && Encodable(s)
            && exists minor: u16 :: minor <= MINOR && bytes == CheckpointOf(minor, Payload(s))
    ensures var s := Decode(registry, bytes).value;
            && |bytes| == |Encode(s)|
            && bytes[..10] == Encode(s)[..10] && bytes[12..] == Encode(s)[12..]
            && (FromLe(bytes[10..12]) == MINOR ==> bytes == Encode(s))
  {
    hide GetState, Payload, ValidState, Encodable;
    ParseReadOnly(bytes);
    StateReadOnly(bytes[HEADER_LEN..]);
    var s := Decode(registry, bytes).value;
    var minor: u16 :| minor <= MINOR && bytes == CheckpointOf(minor, Payload(s));
    MinorBytes(minor, Payload(s));
    MinorBytes(MINOR, Payload(s));
  }

  lemma MinorBytes(minor: u16, payload: Bytes)
    ensures var b := CheckpointOf(minor, payload);
            && |b| == HEADER_LEN + |payload|
            && b[..10] == MAGIC + (Le(2, HEADER_LEN) + Le(2, MAJOR))
            && FromLe(b[10..12]) == minor
            && b[12..] == PutU32(0, PutU64(|payload|, payload))
  {
    HeaderLength(minor, |payload|, payload);
    IntegerWidths();
    FromLeOfLe(2, minor);
    var tail := PutU32(0, PutU64(|payload|, payload));
    var b := CheckpointOf(minor, payload);
    assert b == MAGIC + (Le(2, HEADER_LEN) + (Le(2, MAJOR) + (Le(2, minor) + tail)));
    assert b[10..12] == Le(2, minor);
  }

  /**
   Cutting a run at a checkpoint changes nothing: the fabric restored from the bytes goes
   through the states, and shows the adapters and commits, of the run that was not cut.
   */
  lemma RestoredRunContinues<E>(registry: Registry, first: seq<Call<E>>, second: seq<Call<E>>)
    requires forall c :: c in first ==> (if c.Prepare? then c.registry else c.tools.registry) == registry
    requires forall n :: 0 <= n < |first| ==> Gentle(first[n], Run(first[..n], EMPTY_STATE))
    requires Encodable(Run(first, EMPTY_STATE)) && HEADER_LEN + |Payload(Run(first, EMPTY_STATE))| <= U64_MAX
    ensures var restored := Decode(registry, Encode(Run(first, EMPTY_STATE)));
            && restored.Ok?
            && Run(second, restored.value) == Run(first + second, EMPTY_STATE)
            && History(first, EMPTY_STATE) + History(second, restored.value) == History(first + second, EMPTY_STATE)
  {
    hide ValidState, Encodable, Payload, Encode, Decode, Run, History, Gentle;
    EmptyStateIsValid(registry);
    RunKeepsValid(first, EMPTY_STATE, registry);
    DecodeOfEncode(registry, Run(first, EMPTY_STATE), MINOR);
    RunInTwoParts(first, second, EMPTY_STATE);
  }
}
