/**
 * The PerfTracker result data model: tests, environment nodes and the suite
 * that collects them, the JSON encoder's attribute filter, the command-line
 * overrides and the API URL. Attribute values are Python values (`PyValue`),
 * so the type checks of the `validate` methods and the falsy tests of the
 * encoder can be stated as the code makes them. The clock (`datetime.now`)
 * and `uuid.uuid1()` become parameters.
 */
module Client {
  import opened Wrappers
  import opened Py

  const ApiVer: string := "1.0"

  const TestStatuses: seq<string> := ["NOTTESTED", "SKIPPED", "INPROGRESS", "SUCCESS", "FAILED"]

  /**
   * The Python values the client's objects hold. A `datetime` is its
   * timestamp, a `uuid.UUID` its text, any other object its class name.
   */
  datatype PyValue =
    | PNone
    | PBool(b: bool)
    | PInt(i: int)
    | PFloat(x: real)
    | PStr(s: string)
    | PList(items: seq<PyValue>)
    | PDict(entries: map<string, PyValue>)
    | PDateTime(stamp: int)
    | PUuid(hex: string)
    | PObject(className: string)

  /** Python truthiness: None, False, zero and empty containers are false. */
  predicate Truthy(v: PyValue) {
    match v
    case PNone => false
    case PBool(b) => b
    case PInt(i) => i != 0
    case PFloat(x) => x != 0.0
    case PStr(s) => s != []
    case PList(items) => items != []
    case PDict(m) => m != map[]
    case _ => true
  }

  /** `x if x else fallback`. */
  function OrElse(x: PyValue, fallback: PyValue): (r: PyValue)
    ensures Truthy(x) ==> r == x
    ensures !Truthy(x) ==> r == fallback
  {
    if Truthy(x) then x else fallback
  }

  predicate IsNoneOrInt(v: PyValue) { v.PNone? || v.PInt? }

  predicate IsNoneOrList(v: PyValue) { v.PNone? || v.PList? }

  predicate IsNoneOrDict(v: PyValue) { v.PNone? || v.PDict? }

  predicate IsNoneOrDateTime(v: PyValue) { v.PNone? || v.PDateTime? }

  // ---------------------------------------------------------------------------
  // ptJsonEncoder.default

  /** An object's `__dict__`: attribute names and values in assignment order. */
  type Attrs = seq<(string, PyValue)>

  function Names(attrs: Attrs): (ns: seq<string>)
    ensures |ns| == |attrs| && forall i :: 0 <= i < |attrs| ==> ns[i] == attrs[i].0
  {
    seq(|attrs|, i requires 0 <= i < |attrs| => attrs[i].0)
  }

  /** A dictionary's keys are distinct. */
  predicate DistinctNames(attrs: Attrs) {
    forall i, k :: 0 <= i < k < |attrs| ==> attrs[i].0 != attrs[k].0
  }

  /** `j[key] = val` on an OrderedDict: a known key keeps its place, a new one goes last. */
  function Put(j: Attrs, key: string, val: PyValue): (r: Attrs)
    ensures key !in Names(j) ==> r == j + [(key, val)]
    ensures key in Names(j) ==> |r| == |j| && (key, val) in r
    ensures DistinctNames(j) && key in Names(j) ==>
      forall i :: 0 <= i < |j| ==> r[i] == (if j[i].0 == key then (key, val) else j[i])
  {
    if j == [] then [(key, val)]
    else if j[0].0 == key then
      PutAtHead(j, key, val);
      [(key, val)] + j[1..]
    else
      var rest := Put(j[1..], key, val);
      NamesBehindHead(j, key);
      if key !in Names(j) then
        assert j == [j[0]] + j[1..];
        [j[0]] + rest
      else if !DistinctNames(j) then
        PutKnownBehindHead(j, key, val, rest);
        [j[0]] + rest
      else
        PutKnownBehindHead(j, key, val, rest);
        DistinctTail(j);
        PutInPlace(j, key, val, rest);
        [j[0]] + rest
  }

  /** Storing under the head's key replaces the head, and only the head when the keys are distinct. */
  lemma PutAtHead(j: Attrs, key: string, val: PyValue)
    requires j != [] && j[0].0 == key
    ensures key in Names(j)
    ensures |[(key, val)] + j[1..]| == |j| && (key, val) in [(key, val)] + j[1..]
    ensures DistinctNames(j) ==>
      forall i :: 0 <= i < |j| ==> ([(key, val)] + j[1..])[i] == (if j[i].0 == key then (key, val) else j[i])
  {
    assert Names(j)[0] == key;
    if DistinctNames(j) {
      forall i | 0 < i < |j| ensures ([(key, val)] + j[1..])[i] == j[i] && j[i].0 != key {
        assert j[0].0 != j[i].0;
      }
    }
  }

  /** A name other than the head's is one of `j`'s iff it is one of its tail's. */
  lemma NamesBehindHead(j: Attrs, key: string)
    requires j != [] && j[0].0 != key
    ensures key in Names(j) <==> key in Names(j[1..])
  {
    if key in Names(j) {
      var i :| 0 <= i < |j| && Names(j)[i] == key;
      assert j[1..][i - 1] == j[i];
      assert Names(j[1..])[i - 1] == key;
    }
    if key in Names(j[1..]) {
      var i :| 0 <= i < |j| - 1 && Names(j[1..])[i] == key;
      assert j[1..][i] == j[i + 1];
      assert Names(j)[i + 1] == key;
    }
  }

  /** A dictionary's tail has distinct keys too. */
  lemma DistinctTail(j: Attrs)
    requires j != [] && DistinctNames(j)
    ensures DistinctNames(j[1..])
  {
    forall i, k | 0 <= i < k < |j| - 1 ensures j[1..][i].0 != j[1..][k].0 {
      assert j[1..][i] == j[i + 1] && j[1..][k] == j[k + 1];
    }
  }

  /** A stored pair in the updated tail is one in the updated `j`, which keeps its length. */
  lemma PutKnownBehindHead(j: Attrs, key: string, val: PyValue, rest: Attrs)
    requires j != [] && |rest| == |j| - 1 && (key, val) in rest
    ensures |[j[0]] + rest| == |j| && (key, val) in [j[0]] + rest
  {
  }

  /** Updating the tail in place, behind a head with another key, updates `j` in place. */
  lemma PutInPlace(j: Attrs, key: string, val: PyValue, rest: Attrs)
    requires j != [] && j[0].0 != key && |rest| == |j| - 1
    requires forall i :: 0 <= i < |j[1..]| ==> rest[i] == (if j[1..][i].0 == key then (key, val) else j[1..][i])
    ensures forall i :: 0 <= i < |j| ==> ([j[0]] + rest)[i] == (if j[i].0 == key then (key, val) else j[i])
  {
    forall i | 0 < i < |j| ensures ([j[0]] + rest)[i] == rest[i - 1] && j[1..][i - 1] == j[i] {
    }
  }

  /** The encoder keeps a public attribute whose value is truthy. */
  predicate Kept(a: (string, PyValue)) {
    !StartsWith(a.0, "_") && Truthy(a.1)
  }

  /** The attributes `default` emits, in the object's own order. */
  function Encoded(attrs: Attrs): (j: Attrs)
    ensures |j| <= |attrs|
  {
    if attrs == [] then []
    else
      var last := attrs[|attrs| - 1];
      Encoded(attrs[..|attrs| - 1]) + (if Kept(last) then [last] else [])
  }

  /** Encoding distributes over concatenation, so the emitted attributes keep their relative order. */
  lemma {:induction false} EncodedAppend(a: Attrs, b: Attrs)
    ensures Encoded(a + b) == Encoded(a) + Encoded(b)
  {
    if b != [] {
      var init := b[..|b| - 1];
      assert (a + b)[..|a + b| - 1] == a + init;
      assert (a + b)[|a + b| - 1] == b[|b| - 1];
      EncodedAppend(a, init);
    } else {
      assert a + b == a;
    }
  }

  /** An attribute is emitted exactly when it is one of the object's and is kept. */
  lemma {:induction false} EncodedMembers(attrs: Attrs)
    ensures forall p :: p in Encoded(attrs) <==> p in attrs && Kept(p)
  {
    if attrs != [] {
      var init := attrs[..|attrs| - 1];
      EncodedMembers(init);
      assert attrs == init + [attrs[|attrs| - 1]];
    }
  }

  /** The encoder emits no private attribute and no falsy value. */
  lemma EncodedOmits(attrs: Attrs, name: string, v: PyValue)
    requires StartsWith(name, "_") || !Truthy(v)
    ensures (name, v) !in Encoded(attrs)
  {
    EncodedMembers(attrs);
  }

  /** Encoding what was already encoded changes nothing. */
  lemma {:induction false} EncodedIdempotent(attrs: Attrs)
    ensures Encoded(Encoded(attrs)) == Encoded(attrs)
  {
    if attrs != [] {
      var init := attrs[..|attrs| - 1];
      var last := attrs[|attrs| - 1];
      var e := Encoded(init);
      var tail := if Kept(last) then [last] else [];
      assert Encoded(attrs) == e + tail;
      EncodedIdempotent(init);
      EncodedAppend(e, tail);
      assert Encoded(tail) == tail by {
        if Kept(last) {
          assert tail[..0] == [];
        }
      }
    }
  }

  /** Every emitted name is one of the object's names. */
  lemma {:induction false} EncodedNames(attrs: Attrs)
    ensures forall n :: n in Names(Encoded(attrs)) ==> n in Names(attrs)
  {
    if attrs != [] {
      var init := attrs[..|attrs| - 1];
      EncodedNames(init);
      var tail := if Kept(attrs[|attrs| - 1]) then [attrs[|attrs| - 1]] else [];
      assert Names(Encoded(attrs)) == Names(Encoded(init) + tail);
      assert Names(Encoded(init) + tail) == Names(Encoded(init)) + Names(tail) by {
        NamesAppend(Encoded(init), tail);
      }
      assert Names(attrs) == Names(init) + [attrs[|attrs| - 1].0];
    }
  }

  lemma NamesAppend(a: Attrs, b: Attrs)
    ensures Names(a + b) == Names(a) + Names(b)
  {
  }

  /**
   * `ptJsonEncoder.default(obj)` for one of the client's objects: the
   * OrderedDict of its public, truthy attributes in attribute order.
   */
  method Default(attrs: Attrs) returns (j: Attrs)
    requires DistinctNames(attrs)
    ensures j == Encoded(attrs)
  {
    j := [];
    for i := 0 to |attrs|
      invariant j == Encoded(attrs[..i])
    {
      var (key, val) := attrs[i];
      assert attrs[..i + 1] == attrs[..i] + [attrs[i]];
      assert attrs[..i + 1][..i] == attrs[..i];
      if StartsWith(key, "_") {
        continue;
      }
      if val.PNone? || !Truthy(val) {
        continue;
      }
      EncodedNames(attrs[..i]);
      assert key !in Names(attrs[..i]);
      j := Put(j, key, val);
    }
    assert attrs[..|attrs|] == attrs;
  }

  // ---------------------------------------------------------------------------
  // ptTest

  /** The arguments of `ptTest(...)`. */
  datatype TestArgs = TestArgs(
    tag: PyValue, uuid1: PyValue, group: PyValue, binary: PyValue, cmdline: PyValue,
    description: PyValue, loops: PyValue, scores: PyValue, deviations: PyValue,
    category: PyValue, metrics: PyValue, links: PyValue, lessBetter: PyValue,
    errors: PyValue, warnings: PyValue, begin: PyValue, end: PyValue, status: PyValue)

  /** `ptTest(tag)` with every other argument left at its default. */
  function DefaultTestArgs(tag: PyValue): TestArgs {
    TestArgs(tag, PNone, PNone, PNone, PNone, PNone, PNone, PNone, PNone, PNone,
             PStr("loops/sec"), PNone, PBool(false), PNone, PNone, PNone, PNone, PStr("SUCCESS"))
  }

  /**
   * The values a test holds after `__init__`: a missing uuid, begin or end is
   * filled from `newUuid` and `now`, missing links become an empty dict.
   */
  function TestDefaults(a: TestArgs, newUuid: string, now: int): (t: TestArgs)
    ensures Truthy(t.uuid1) && Truthy(t.begin) && Truthy(t.end)
    ensures t.links == if Truthy(a.links) then a.links else PDict(map[])
    ensures t.(uuid1 := a.uuid1, links := a.links, begin := a.begin, end := a.end) == a
  {
    a.(uuid1 := OrElse(a.uuid1, PUuid(newUuid)),
       links := OrElse(a.links, PDict(map[])),
       begin := OrElse(a.begin, PDateTime(now)),
       end := OrElse(a.end, PDateTime(now)))
  }

  /** The scores and deviations agree: no deviations, or as many as there are scores. */
  predicate DeviationsMatch(scores: PyValue, deviations: PyValue) {
    deviations.PNone? || (!scores.PNone? && scores.PList? && deviations.PList? &&
                          |scores.items| == |deviations.items|)
  }

  /**
   * `ptTest.validate`: the first failing assertion, by the attribute it checks.
   */
  function ValidateTest(t: TestArgs): (r: Result<(), string>)
    ensures r.Ok? <==>
      && IsNoneOrDict(t.links) && IsNoneOrList(t.errors) && IsNoneOrList(t.warnings)
      && IsNoneOrList(t.scores) && IsNoneOrInt(t.loops) && IsNoneOrList(t.deviations)
      && DeviationsMatch(t.scores, t.deviations)
      && IsNoneOrDateTime(t.begin) && IsNoneOrDateTime(t.end)
      && t.status.PStr? && t.status.s in TestStatuses
  {
    if !IsNoneOrDict(t.links) then Err("links")
    else if !IsNoneOrList(t.errors) then Err("errors")
    else if !IsNoneOrList(t.warnings) then Err("warnings")
    else if !IsNoneOrList(t.scores) then Err("scores")
    else if !IsNoneOrInt(t.loops) then Err("loops")
    else if !IsNoneOrList(t.deviations) then Err("deviations")
    else if !(t.deviations.PNone? || (!t.scores.PNone? && |t.scores.items| == |t.deviations.items|)) then Err("deviations")
    else if !IsNoneOrDateTime(t.begin) then Err("begin")
    else if !IsNoneOrDateTime(t.end) then Err("end")
    else if !(t.status.PStr? && t.status.s in TestStatuses) then Err("status")
    else Ok(())
  }

  /** `ptTest(tag)` with defaults passes its own validation, whatever the tag. */
  lemma DefaultTestValid(tag: PyValue, newUuid: string, now: int)
    ensures ValidateTest(TestDefaults(DefaultTestArgs(tag), newUuid, now)).Ok?
  {
    assert TestStatuses[3] == "SUCCESS";
  }

  /** A statusless or unknown-status test, and deviations without scores, are refused. */
  lemma TestRefusals(a: TestArgs, newUuid: string, now: int)
    ensures a.status.PStr? && a.status.s !in TestStatuses ==> ValidateTest(TestDefaults(a, newUuid, now)).Err?
    ensures a.deviations.PList? && a.scores.PNone? ==> ValidateTest(TestDefaults(a, newUuid, now)).Err?
    ensures a.loops.PFloat? ==> ValidateTest(TestDefaults(a, newUuid, now)).Err?
  {
  }

  class PtTest {
    var seqNum: int
    const args: TestArgs
    const autoEnd: PyValue
    const autoBegin: PyValue

    /** `ptTest.__init__` up to the final `validate()` call. */
    constructor (a: TestArgs, newUuid: string, now: int)
      ensures seqNum == 1 && args == TestDefaults(a, newUuid, now)
      ensures autoEnd == a.end && autoBegin == a.begin
    {
      seqNum := 1;
      args := TestDefaults(a, newUuid, now);
      autoEnd := a.end;
      autoBegin := a.begin;
    }

    /** The test's `__dict__`, in assignment order. */
    function Attributes(): (attrs: Attrs)
      reads this
      ensures DistinctNames(attrs)
    {
      [("seq_num", PInt(seqNum)), ("uuid", args.uuid1), ("tag", args.tag), ("group", args.group),
       ("binary", args.binary), ("cmdline", args.cmdline), ("description", args.description),
       ("scores", args.scores), ("loops", args.loops), ("deviations", args.deviations),
       ("category", args.category), ("metrics", args.metrics), ("links", args.links),
       ("less_better", args.lessBetter), ("errors", args.errors), ("warnings", args.warnings),
       ("begin", args.begin), ("end", args.end), ("status", args.status),
       ("_auto_end", autoEnd), ("_auto_begin", autoBegin)]
    }
  }

  /**
   * `ptTest(...)`: the object is built, then validated; a failed assertion
   * means no test.
   */
  method NewTest(a: TestArgs, newUuid: string, now: int) returns (r: Result<PtTest, string>)
    ensures r.Err? <==> ValidateTest(TestDefaults(a, newUuid, now)).Err?
    ensures r.Ok? ==> fresh(r.value) && r.value.seqNum == 1 && r.value.args == TestDefaults(a, newUuid, now)
  {
    var t := new PtTest(a, newUuid, now);
    var v := ValidateTest(t.args);
    if v.Err? {
      return Err(v.error);
    }
    return Ok(t);
  }

  /**
   * What the encoder emits for a validated test: never the `_auto_*`
   * bookkeeping, always its status, and the sequence number once it is set.
   */
  lemma EncodedTest(t: PtTest)
    requires ValidateTest(t.args).Ok?
    ensures ("status", t.args.status) in Encoded(t.Attributes())
    ensures t.seqNum != 0 ==> ("seq_num", PInt(t.seqNum)) in Encoded(t.Attributes())
    ensures ("_auto_end", t.autoEnd) !in Encoded(t.Attributes())
    ensures ("_auto_begin", t.autoBegin) !in Encoded(t.Attributes())
  {
    var attrs, args := t.Attributes(), t.args;
    EncodedMembers(attrs);
    assert attrs[18] == ("status", args.status);
    assert "status"[..1][0] == 's';
    assert args.status.s != [] by {
      assert forall s :: s in TestStatuses ==> s != [];
    }
    assert attrs[0] == ("seq_num", PInt(t.seqNum));
    assert StartsWith("_auto_end", "_") && StartsWith("_auto_begin", "_");
  }

  // ---------------------------------------------------------------------------
  // ptEnvNode, ptComponent

  /** The arguments of `ptEnvNode(...)`. */
  datatype NodeArgs = NodeArgs(
    name: PyValue, version: PyValue, nodeType: PyValue, ip: PyValue, hostname: PyValue,
    params: PyValue, cpus: PyValue, ramMb: PyValue, ramGb: PyValue, diskGb: PyValue,
    links: PyValue)

  /** `ptEnvNode(name)` with every other argument left at its default. */
  function DefaultNodeArgs(name: PyValue): NodeArgs {
    NodeArgs(name, PNone, PNone, PNone, PNone, PNone, PInt(0), PInt(0), PInt(0), PInt(0), PNone)
  }

  /** `x * 1024` for the values it is defined on. */
  function Times1024(x: PyValue): (r: Result<PyValue, string>)
    ensures x.PInt? ==> r == Ok(PInt(x.i * 1024))
    ensures x.PFloat? ==> r == Ok(PFloat(x.x * 1024.0))
    ensures x.PBool? ==> r == Ok(PInt(if x.b then 1024 else 0))
    ensures x.PNone? ==> r.Err?
  {
    match x
    case PInt(i) => Ok(PInt(i * 1024))
    case PFloat(f) => Ok(PFloat(f * 1024.0))
    case PBool(b) => Ok(PInt(if b then 1024 else 0))
    case _ => Err("TypeError")
  }

  /** `ram_mb if ram_mb else ram_gb * 1024`. */
  function RamMbOf(ramMb: PyValue, ramGb: PyValue): (r: Result<PyValue, string>)
    ensures Truthy(ramMb) ==> r == Ok(ramMb)
    ensures !Truthy(ramMb) && ramGb.PInt? ==> r == Ok(PInt(ramGb.i * 1024))
    ensures !Truthy(ramMb) && ramGb.PFloat? ==> r.Ok? && r.value.PFloat?
  {
    if Truthy(ramMb) then Ok(ramMb) else Times1024(ramGb)
  }

  /** `ptEnvNode.validate`: the first failing assertion, by the attribute it checks. */
  function ValidateNode(cpus: PyValue, ramMb: PyValue, diskGb: PyValue, links: PyValue): (r: Result<(), string>)
    ensures r.Ok? <==> IsNoneOrInt(cpus) && IsNoneOrInt(ramMb) && IsNoneOrInt(diskGb) && IsNoneOrDict(links)
  {
    if !IsNoneOrInt(cpus) then Err("cpus")
    else if !IsNoneOrInt(ramMb) then Err("ram_mb")
    else if !IsNoneOrInt(diskGb) then Err("disk_gb")
    else if !IsNoneOrDict(links) then Err("links")
    else Ok(())
  }

  /** Whether `ptEnvNode(...)` with these arguments completes. */
  predicate NodeBuilds(a: NodeArgs) {
    && RamMbOf(a.ramMb, a.ramGb).Ok?
    && ValidateNode(a.cpus, RamMbOf(a.ramMb, a.ramGb).value, a.diskGb, OrElse(a.links, PDict(map[]))).Ok?
  }

  /** Giving the RAM in whole gigabytes stores it in megabytes; a fractional count of gigabytes is refused. */
  lemma RamInGigabytes(name: PyValue, gb: int, fgb: real)
    ensures var a := DefaultNodeArgs(name).(ramGb := PInt(gb));
            NodeBuilds(a) && RamMbOf(a.ramMb, a.ramGb) == Ok(PInt(gb * 1024))
    ensures !NodeBuilds(DefaultNodeArgs(name).(ramGb := PFloat(fgb)))
    ensures !NodeBuilds(DefaultNodeArgs(name).(ramGb := PNone))
  {
  }

  class PtEnvNode {
    var name: PyValue
    var version: PyValue
    var nodeType: PyValue
    const ip: PyValue
    const hostname: PyValue
    const uuid: PyValue
    const params: PyValue
    const cpus: PyValue
    const ramMb: PyValue
    const diskGb: PyValue
    const links: PyValue
    var children: seq<PtEnvNode>

    /** The body of `ptEnvNode.__init__` once `ram_mb` is known. */
    constructor (a: NodeArgs, ramMb: PyValue, newUuid: string)
      ensures name == a.name && version == a.version && nodeType == a.nodeType
      ensures ip == a.ip && hostname == a.hostname && uuid == PUuid(newUuid) && params == a.params
      ensures cpus == a.cpus && this.ramMb == ramMb && diskGb == a.diskGb
      ensures links == OrElse(a.links, PDict(map[])) && children == []
    {
      name := a.name;
      version := a.version;
      nodeType := a.nodeType;
      ip := a.ip;
      hostname := a.hostname;
      uuid := PUuid(newUuid);
      params := a.params;
      cpus := a.cpus;
      this.ramMb := ramMb;
      diskGb := a.diskGb;
      links := if Truthy(a.links) then a.links else PDict(map[]);
      children := [];
    }

    /** `addNode`: the node becomes the last child and is handed back. */
    method AddNode(node: PtEnvNode) returns (r: PtEnvNode)
      modifies `children
      ensures children == old(children) + [node] && r == node
    {
      children := children + [node];
      return node;
    }

    /** The node's `__dict__`, in assignment order; children are objects. */
    function Attributes(): (attrs: Attrs)
      reads this
      ensures DistinctNames(attrs)
    {
      [("name", name), ("version", version), ("node_type", nodeType), ("ip", ip),
       ("hostname", hostname), ("uuid", uuid), ("params", params), ("cpus", cpus),
       ("ram_mb", ramMb), ("disk_gb", diskGb), ("links", links),
       ("children", PList(seq(|children|, _ => PObject("ptEnvNode"))))]
    }
  }

  /**
   * `ptEnvNode(...)`: the RAM size is settled, the node built and validated;
   * a `TypeError` or a failed assertion means no node.
   */
  method NewEnvNode(a: NodeArgs, newUuid: string) returns (r: Result<PtEnvNode, string>)
    ensures r.Ok? <==> NodeBuilds(a)
    ensures r.Ok? ==> fresh(r.value) && r.value.children == []
    ensures r.Ok? ==> r.value.ramMb == RamMbOf(a.ramMb, a.ramGb).value
    ensures r.Ok? ==> r.value.links == OrElse(a.links, PDict(map[]))
    ensures r.Ok? ==> r.value.name == a.name && r.value.version == a.version && r.value.nodeType == a.nodeType
  {
    var ram := RamMbOf(a.ramMb, a.ramGb);
    if ram.Err? {
      return Err(ram.error);
    }
    var n := new PtEnvNode(a, ram.value, newUuid);
    var v := ValidateNode(n.cpus, n.ramMb, n.diskGb, n.links);
    if v.Err? {
      return Err(v.error);
    }
    return Ok(n);
  }

  /**
   * `ptComponent(name, version, links, **kwargs)` as written: `links` is taken
   * by the component's own signature and not passed on, so the node is always
   * built without links; the version is set again afterwards.
   */
  method NewComponentAsWritten(a: NodeArgs, newUuid: string) returns (r: Result<PtEnvNode, string>)
    ensures r.Ok? <==> NodeBuilds(a.(version := PNone, links := PNone))
    ensures r.Ok? ==> fresh(r.value) && r.value.children == []
    ensures r.Ok? ==> r.value.links == PDict(map[])
    ensures r.Ok? ==> r.value.name == a.name && r.value.version == a.version
    ensures r.Ok? ==> r.value.nodeType == PStr("service")
  {
    r := NewEnvNode(a.(version := PNone, links := PNone), newUuid);
    if r.Ok? {
      r.value.name := a.name;
      r.value.version := a.version;
      r.value.nodeType := PStr("service");
    }
  }

  /** `ptComponent(...)` with its links passed on to the node. */
  method NewComponent(a: NodeArgs, newUuid: string) returns (r: Result<PtEnvNode, string>)
    ensures r.Ok? <==> NodeBuilds(a)
    ensures r.Ok? ==> fresh(r.value) && r.value.children == []
    ensures r.Ok? ==> r.value.links == OrElse(a.links, PDict(map[]))
    ensures r.Ok? ==> r.value.name == a.name && r.value.version == a.version
    ensures r.Ok? ==> r.value.nodeType == PStr("service")
  {
    r := NewEnvNode(a, newUuid);
    if r.Ok? {
      r.value.nodeType := PStr("service");
    }
  }

  /** The links a component ends up with, as written and as intended. */
  function ComponentLinks(a: NodeArgs, forwarded: bool): (links: PyValue)
    ensures forwarded && Truthy(a.links) ==> links == a.links
    ensures !forwarded ==> links == PDict(map[])
  {
    OrElse(if forwarded then a.links else PNone, PDict(map[]))
  }

  /** A component given a link loses it as written, and keeps it when the links are passed on. */
  lemma ComponentDropsLinks(name: PyValue, linkName: string, url: string)
    ensures var a := DefaultNodeArgs(name).(links := PDict(map[linkName := PStr(url)]));
            && NodeBuilds(a) && NodeBuilds(a.(version := PNone, links := PNone))
            && ComponentLinks(a, false) != a.links
            && ComponentLinks(a, true) == a.links
  {
    var m := map[linkName := PStr(url)];
    assert linkName in m;
  }

  // ---------------------------------------------------------------------------
  // ptSuite

  /**
   * The command-line options the suite reads; an empty string stands for an
   * option that was not given (None), which every use tests with `if not x`.
   */
  datatype Options = Options(ptToFile: string, ptProject: string, ptUrl: string,
                             ptUuid: string, ptTitle: string, ptVersion: string)

  /** The suite's fields that `handleOptions` sets. */
  datatype Settings = Settings(uuid: string, projectName: string, jobTitle: string,
                               suiteVer: string, options: Option<Options>)

  /** What `handleOptions(options)` leaves the settings as. */
  function Handled(s: Settings, o: Options): (t: Settings)
    ensures t.options == Some(o)
    ensures t.uuid == (if o.ptUuid != "" then o.ptUuid else s.uuid)
    ensures t.jobTitle == (if o.ptTitle != "" then o.ptTitle else s.jobTitle)
    ensures t.suiteVer == (if o.ptVersion != "" then o.ptVersion else s.suiteVer)
    ensures s.projectName != "" ==> t.projectName == s.projectName
    ensures s.projectName == "" ==> t.projectName == o.ptProject
  {
    Settings(
      if o.ptUuid != "" then o.ptUuid else s.uuid,
      if s.projectName != "" then s.projectName else o.ptProject,
      if o.ptTitle != "" then o.ptTitle else s.jobTitle,
      if o.ptVersion != "" then o.ptVersion else s.suiteVer,
      Some(o))
  }

  /** Handling the same options a second time changes nothing more. */
  lemma HandledIdempotent(s: Settings, o: Options)
    ensures Handled(Handled(s, o), o) == Handled(s, o)
  {
  }

  /** `_genApiUrl(path)`: both assertions must hold, then `<pt_url>/api/v<API_VER>/<path>`. */
  function GenApiUrl(options: Option<Options>, path: string): (r: Result<string, string>)
    ensures r.Err? <==> options.None? || options.value.ptUrl == ""
    ensures r.Ok? ==> StartsWith(r.value, options.value.ptUrl)
    ensures r.Ok? ==> r.value[|options.value.ptUrl|..] == "/api/v1.0/" + path
  {
    if options.None? then Err("cmdline_options")
    else if options.value.ptUrl == "" then Err("pt_url")
    else Ok(options.value.ptUrl + "/api/v" + ApiVer + "/" + path)
  }

  /** Two paths under the same portal give the same URL only when they are the same path. */
  lemma GenApiUrlInjective(options: Option<Options>, p: string, q: string)
    requires GenApiUrl(options, p).Ok? && GenApiUrl(options, p) == GenApiUrl(options, q)
    ensures p == q
  {
    var u := options.value.ptUrl;
    var head := "/api/v1.0/";
    assert GenApiUrl(options, p).value[|u|..] == head + p;
    assert GenApiUrl(options, q).value[|u|..] == head + q;
    assert p == (head + p)[|head|..];
    assert q == (head + q)[|head|..];
  }

  class PtSuite {
    var jobTitle: string
    const cmdline: string
    var projectName: string
    const productName: string
    const productVer: string
    const suiteName: string
    var suiteVer: string
    var uuid: string
    const append: bool
    var envNodes: seq<PtEnvNode>
    var links: map<string, string>
    var tests: seq<PtTest>
    var cmdlineOptions: Option<Options>

    /**
     * `ptSuite(...)`; empty strings stand for None. `argv` is the quoted
     * command line used when none is given, `newUuid` the generated uuid.
     */
    constructor (jobTitle: string, projectName: string, cmdline: string, productName: string,
                 productVer: string, suiteName: string, suiteVer: string, uuid1: string,
                 append: bool, links: map<string, string>, argv: string, newUuid: string)
      ensures this.jobTitle == jobTitle && this.projectName == projectName
      ensures this.cmdline == (if cmdline != "" then cmdline else argv)
      ensures this.productName == productName && this.productVer == productVer
      ensures this.suiteName == suiteName && this.suiteVer == suiteVer
      ensures uuid == (if uuid1 != "" then uuid1 else newUuid) && this.append == append
      ensures envNodes == [] && this.links == links && tests == [] && cmdlineOptions == None
    {
      this.jobTitle := jobTitle;
      this.cmdline := if cmdline != "" then cmdline else argv;
      this.projectName := projectName;
      this.productName := productName;
      this.productVer := productVer;
      this.suiteName := suiteName;
      this.suiteVer := suiteVer;
      uuid := if uuid1 != "" then uuid1 else newUuid;
      this.append := append;
      envNodes := [];
      this.links := links;
      tests := [];
      cmdlineOptions := None;
    }

    /** Every test carries its position in the suite, counting from 1. */
    ghost predicate Numbered()
      reads this, set t | t in tests
    {
      forall i :: 0 <= i < |tests| ==> tests[i].seqNum == i + 1
    }

    /** `addNode`: the node is appended to the environment and handed back. */
    method AddNode(node: PtEnvNode) returns (r: PtEnvNode)
      modifies `envNodes
      ensures envNodes == old(envNodes) + [node] && r == node
    {
      envNodes := envNodes + [node];
      return node;
    }

    /** `addLink(name, url)`: the name maps to the url, replacing an earlier one. */
    method AddLink(name: string, url: string)
      modifies `links
      ensures links == old(links)[name := url]
      ensures links[name] == url && forall n :: n in old(links) && n != name ==> links[n] == old(links)[n]
    {
      links := links[name := url];
    }

    /**
     * `addTest(test)`: the test is numbered after the tests already added and
     * appended. Adding a new test keeps the numbering; adding one a second
     * time renumbers its earlier entry too, breaking it.
     */
    method AddTest(test: PtTest)
      modifies `tests, test`seqNum
      ensures tests == old(tests) + [test]
      ensures test.seqNum == |old(tests)| + 1
      ensures old(Numbered()) && test !in old(tests) ==> Numbered()
      ensures test in old(tests) ==> !Numbered()
    {
      test.seqNum := |tests| + 1;
      tests := tests + [test];
      if test in old(tests) {
        var i :| 0 <= i < |old(tests)| && old(tests)[i] == test;
        assert tests[i].seqNum != i + 1;
      }
    }

    function GetSettings(): Settings
      reads this
    {
      Settings(uuid, projectName, jobTitle, suiteVer, cmdlineOptions)
    }

    /** `handleOptions(options)`: the options are kept and override the fields they give. */
    method HandleOptions(o: Options)
      modifies this
      ensures GetSettings() == Handled(old(GetSettings()), o)
      ensures tests == old(tests) && envNodes == old(envNodes) && links == old(links)
    {
      cmdlineOptions := Some(o);
      if o.ptUuid != "" {
        uuid := o.ptUuid;
      }
      if projectName == "" {
        projectName := o.ptProject;
      }
      if o.ptTitle != "" {
        jobTitle := o.ptTitle;
      }
      if o.ptVersion != "" {
        suiteVer := o.ptVersion;
      }
    }

    /** `_genApiUrl(url)` on the suite's options. */
    function ApiUrl(path: string): (r: Result<string, string>)
      reads this
      ensures r == GenApiUrl(cmdlineOptions, path)
      ensures r.Ok? <==> cmdlineOptions.Some? && cmdlineOptions.value.ptUrl != ""
    {
      GenApiUrl(cmdlineOptions, path)
    }
  }
}
