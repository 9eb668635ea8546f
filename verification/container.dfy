/**
 The service container: a name -> service registry with last-writer-wins
 registration, lookup, typed retrieval into an interface slot, and
 tag-driven injection into the fields of a struct.

 Go reflection is replaced by the `Target` datatype: what a caller passes is
 a non-pointer, a nil pointer, a pointer to an interface-typed slot, a pointer
 to a struct (its fields in declaration order), or a pointer to anything else.
 Each operation is atomic; the reader/writer lock is not modelled.
 */
module DI {
  import opened Errors

  /** An opaque service value as stored in an `interface{}`: nil, or a handle
      with an identity and the name of its dynamic type. */
  datatype Service = Nil | Handle(id: nat, typ: string)

  /** The static type of a destination: `interface{}` accepts every dynamic
      type, any other type accepts the listed dynamic types. */
  datatype Kind = AnyType | OneOf(types: set<string>)

  /** `reflect.Value.Set` succeeds: the value is not nil and its dynamic type
      is assignable to the destination. Otherwise Go panics. */
  predicate Assignable(s: Service, k: Kind)
  {
    s.Handle? && (k.AnyType? || s.typ in k.types)
  }

  /** A struct field: its tag (key -> value), whether reflection may set it
      (exported and addressable), its static type and its current value. */
  datatype Field = Field(tags: map<string, string>, settable: bool, kind: Kind, value: Service)

  /** `field.Tag.Get("inject")`: the empty string when the key is absent. */
  function InjectKey(f: Field): string
  {
    if "inject" in f.tags then f.tags["inject"] else ""
  }

  datatype Target =
    | NonPointer
    | NilPointer
    | ToInterface(kind: Kind, slot: Service)
    | ToStruct(fields: seq<Field>)
    | ToOther

  /** What `GetTyped` and `Inject` leave behind: the target as the caller
      sees it afterwards, and the returned error. */
  datatype Effect = Effect(target: Target, outcome: Outcome)

  datatype Container = Container(services: map<string, Service>)

  function NotFound(name: string): Error
  {
    Leaf("service '" + name + "' not found")
  }

  const NotInterfacePointer: Error := Leaf("target must be a pointer to an interface")

  const NotPointer: Error := Leaf("target must be a pointer")

  function InjectFailure(key: string, cause: Error): Error
  {
    Wrapped("failed to inject " + key, cause)
  }

  /** Lookup: the bound service, or a not-found error naming the service. */
  function Get(c: Container, name: string): (r: Result<Service>)
    ensures r.Ok? <==> name in c.services
    ensures r.Ok? ==> r.value == c.services[name]
    ensures r.Err? ==> r.error == NotFound(name)
  {
    if name in c.services then Ok(c.services[name]) else Err(NotFound(name))
  }

  /** A fresh container has no bindings at all. */
  function NewContainer(): (c: Container)
    ensures forall name :: Get(c, name) == Err(NotFound(name))
  {
    Container(map[])
  }

  /** Registration cannot fail; it binds `name` to exactly `s`, silently
      replacing any earlier binding, and leaves every other name as it was. */
  function Register(c: Container, name: string, s: Service): (c': Container)
    ensures Get(c', name) == Ok(s)
    ensures forall n :: n != name ==> Get(c', n) == Get(c, n)
  {
    Container(c.services[name := s])
  }

  /** Overwrite: of two registrations under one name, the later one wins. */
  lemma RegisterOverwrites(c: Container, name: string, s1: Service, s2: Service)
    ensures Get(Register(Register(c, name, s1), name, s2), name) == Ok(s2)
    ensures Register(Register(c, name, s1), name, s2) == Register(c, name, s2)
  {
  }

  /** `GetTyped` panics when the looked-up service cannot be stored into the
      interface slot (a nil service or one of the wrong dynamic type). */
  predicate GetTypedSafe(c: Container, name: string, t: Target)
  {
    name in c.services && t.ToInterface? ==> Assignable(c.services[name], t.kind)
  }

  /** Typed retrieval: the missing name is reported first, then the shape of
      the target; only a pointer to an interface slot receives the service. */
  function GetTyped(c: Container, name: string, t: Target): (r: Effect)
    requires GetTypedSafe(c, name, t)
    ensures name !in c.services ==> r == Effect(t, Fail(NotFound(name)))
    ensures name in c.services && !t.ToInterface? ==> r == Effect(t, Fail(NotInterfacePointer))
    ensures r.outcome.Pass? <==> name in c.services && t.ToInterface?
    ensures r.outcome.Pass? ==> r.target == ToInterface(t.kind, c.services[name])
  {
    match Get(c, name)
    case Err(e) => Effect(t, Fail(e))
    case Ok(s) =>
      if !t.ToInterface? then Effect(t, Fail(NotInterfacePointer))
      else Effect(t.(slot := s), Pass)
  }

  /** A tagged field whose key has no binding. */
  predicate Unbound(c: Container, f: Field)
  {
    InjectKey(f) != "" && InjectKey(f) !in c.services
  }

  /** The index of the first field at or after `i` whose key is unbound,
      or `|fields|` when there is none. */
  function FirstUnbound(c: Container, fields: seq<Field>, i: nat): (k: nat)
    requires i <= |fields|
    ensures i <= k <= |fields|
    ensures forall j :: i <= j < k ==> !Unbound(c, fields[j])
    ensures k < |fields| ==> Unbound(c, fields[k])
    decreases |fields| - i
  {
    if i == |fields| then i
    else if Unbound(c, fields[i]) then i
    else FirstUnbound(c, fields, i + 1)
  }

  /** The first unbound field depends only on the fields' tags. */
  lemma FirstUnboundByTags(c: Container, a: seq<Field>, b: seq<Field>, i: nat)
    requires i <= |a| == |b|
    requires forall j :: i <= j < |a| ==> a[j].tags == b[j].tags
    ensures FirstUnbound(c, a, i) == FirstUnbound(c, b, i)
  {
  }

  /** A field after injection: a settable field with a bound key holds the
      service; every other field is untouched. */
  function Fill(c: Container, f: Field): Field
  {
    var key := InjectKey(f);
    if key != "" && f.settable && key in c.services then f.(value := c.services[key]) else f
  }

  /** The error `Inject` returns when it stops at field `k`. */
  function StopError(c: Container, fields: seq<Field>, k: nat): Error
    requires k < |fields|
  {
    InjectFailure(InjectKey(fields[k]), NotFound(InjectKey(fields[k])))
  }

  /** The injection loop from field `i` on: fields before the first unbound
      one are filled, that one and every later field are left as they are. */
  function InjectFrom(c: Container, fields: seq<Field>, i: nat): (r: (seq<Field>, Outcome))
    requires i <= |fields|
    ensures |r.0| == |fields|
    ensures forall j :: 0 <= j < i ==> r.0[j] == fields[j]
    ensures forall j :: i <= j < FirstUnbound(c, fields, i) ==> r.0[j] == Fill(c, fields[j])
    ensures forall j :: FirstUnbound(c, fields, i) <= j < |fields| ==> r.0[j] == fields[j]
    ensures FirstUnbound(c, fields, i) == |fields| ==> r.1 == Pass
    ensures FirstUnbound(c, fields, i) < |fields| ==>
              r.1 == Fail(StopError(c, fields, FirstUnbound(c, fields, i)))
    decreases |fields| - i
  {
    if i == |fields| then (fields, Pass)
    else
      var key := InjectKey(fields[i]);
      if key == "" then InjectFrom(c, fields, i + 1)
      else
        match Get(c, key)
        case Err(e) => (fields, Fail(InjectFailure(key, e)))
        case Ok(s) =>
          var fields' := if fields[i].settable then fields[i := fields[i].(value := s)] else fields;
          FirstUnboundByTags(c, fields, fields', i + 1);
          InjectFrom(c, fields', i + 1)
  }

  /** `Inject` panics when the target is a pointer to something other than a
      struct, or when a field it would set cannot hold the service. */
  predicate InjectSafe(c: Container, t: Target)
  {
    || t.NonPointer?
    || (&& t.ToStruct?
        && forall j :: 0 <= j < FirstUnbound(c, t.fields, 0) && InjectKey(t.fields[j]) != "" && t.fields[j].settable ==>
             Assignable(c.services[InjectKey(t.fields[j])], t.fields[j].kind))
  }

  /** Tag-driven injection. A non-pointer is rejected before any lookup.
      Fields are visited in declaration order; the first tagged field whose
      key is unbound stops the walk with an error naming that key, and the
      fields filled before it stay filled. Untagged and unsettable fields are
      never written. */
  function Inject(c: Container, t: Target): (r: Effect)
    requires InjectSafe(c, t)
    ensures t.NonPointer? ==> r == Effect(t, Fail(NotPointer))
    ensures t.ToStruct? ==> r.target.ToStruct? && |r.target.fields| == |t.fields|
    ensures t.ToStruct? ==>
              (r.outcome.Pass? <==> forall j :: 0 <= j < |t.fields| ==> !Unbound(c, t.fields[j]))
    ensures t.ToStruct? && r.outcome.Pass? ==>
              forall j :: 0 <= j < |t.fields| ==> r.target.fields[j] == Fill(c, t.fields[j])
    ensures t.ToStruct? && r.outcome.Fail? ==>
              var k := FirstUnbound(c, t.fields, 0);
              && k < |t.fields|
              && Unbound(c, t.fields[k])
              && r.outcome.error == InjectFailure(InjectKey(t.fields[k]), NotFound(InjectKey(t.fields[k])))
              && (forall j :: 0 <= j < k ==> r.target.fields[j] == Fill(c, t.fields[j]))
              && (forall j :: k <= j < |t.fields| ==> r.target.fields[j] == t.fields[j])
  {
    if t.NonPointer? then Effect(t, Fail(NotPointer))
    else
      var (fields, outcome) := InjectFrom(c, t.fields, 0);
      Effect(ToStruct(fields), outcome)
  }

  /** On success every settable tagged field holds exactly the service
      registered under its tag; untagged and unsettable fields are as before. */
  lemma InjectSuccessBindsTaggedFields(c: Container, fields: seq<Field>)
    requires InjectSafe(c, ToStruct(fields))
    requires Inject(c, ToStruct(fields)).outcome.Pass?
    ensures forall j :: 0 <= j < |fields| && InjectKey(fields[j]) != "" ==> InjectKey(fields[j]) in c.services
    ensures forall j :: 0 <= j < |fields| && InjectKey(fields[j]) != "" && fields[j].settable ==>
              Inject(c, ToStruct(fields)).target.fields[j].value == c.services[InjectKey(fields[j])]
    ensures forall j :: 0 <= j < |fields| && (InjectKey(fields[j]) == "" || !fields[j].settable) ==>
              Inject(c, ToStruct(fields)).target.fields[j] == fields[j]
  {
    var r := Inject(c, ToStruct(fields));
    forall j | 0 <= j < |fields| && InjectKey(fields[j]) != ""
      ensures InjectKey(fields[j]) in c.services
    {
      assert !Unbound(c, fields[j]);
    }
  }

  /** The error of a failed injection unwraps to the not-found error of the
      missing key. */
  lemma InjectFailureUnwrapsToNotFound(c: Container, fields: seq<Field>)
    requires InjectSafe(c, ToStruct(fields))
    requires Inject(c, ToStruct(fields)).outcome.Fail?
    ensures var e := Inject(c, ToStruct(fields)).outcome.error;
            var key := InjectKey(fields[FirstUnbound(c, fields, 0)]);
            && e.Wrapped? && e.cause.Leaf? && Is(e, NotFound(e.context[|"failed to inject "|..]))
            && Root(e) == NotFound(key) && Is(e, NotFound(key))
            && Message(e) == "failed to inject " + key + ": service '" + key + "' not found"
  {
    var e := Inject(c, ToStruct(fields)).outcome.error;
    var key := InjectKey(fields[FirstUnbound(c, fields, 0)]);
    assert e == InjectFailure(key, NotFound(key));
    RootIsInChain(e);
    InjectFailureMessage(key);
  }

  /** The text Go prints for an injection that found no service. */
  lemma InjectFailureMessage(key: string)
    ensures Message(InjectFailure(key, NotFound(key))) == "failed to inject " + key + ": service '" + key + "' not found"
  {
    assert ": " + "service '" == ": service '";
  }

  /** A non-pointer target is rejected whatever the registry holds: the
      answer is fixed before any lookup is made. */
  lemma InjectRejectsNonPointerBeforeLookup(c1: Container, c2: Container)
    ensures Inject(c1, NonPointer) == Inject(c2, NonPointer)
    ensures Inject(c1, NonPointer).outcome == Fail(NotPointer)
  {
  }

  // ---------------------------------------------------------------------
  // The registry over a history of calls: only `Register` writes to it.

  datatype Call =
    | RegisterCall(name: string, service: Service)
    | GetCall(name: string)
    | GetTypedCall(name: string, target: Target)
    | InjectCall(target: Target)

  datatype Reply = Registered | Looked(result: Result<Service>) | Assigned(effect: Effect)

  /** The call does not panic in this state. */
  predicate Permitted(c: Container, call: Call)
  {
    match call
    case GetTypedCall(n, t) => GetTypedSafe(c, n, t)
    case InjectCall(t) => InjectSafe(c, t)
    case _ => true
  }

  /** One call against the container: the registry afterwards and the reply. */
  function Perform(c: Container, call: Call): (r: (Container, Reply))
    requires Permitted(c, call)
    ensures !call.RegisterCall? ==> r.0 == c
    ensures call.RegisterCall? ==> r.1 == Registered
  {
    match call
    case RegisterCall(n, s) => (Register(c, n, s), Registered)
    case GetCall(n) => (c, Looked(Get(c, n)))
    case GetTypedCall(n, t) => (c, Assigned(GetTyped(c, n, t)))
    case InjectCall(t) => (c, Assigned(Inject(c, t)))
  }

  /** Every call of the history is permitted in the state it meets. */
  predicate ValidRun(c: Container, calls: seq<Call>)
    decreases |calls|, 0
  {
    |calls| == 0 ||
    (ValidRun(c, calls[..|calls| - 1]) && Permitted(Replay(c, calls[..|calls| - 1]), calls[|calls| - 1]))
  }

  /** The registry after performing a history of calls in order. */
  function Replay(c: Container, calls: seq<Call>): Container
    requires ValidRun(c, calls)
    decreases |calls|, 1
  {
    if |calls| == 0 then c
    else Perform(Replay(c, calls[..|calls| - 1]), calls[|calls| - 1]).0
  }

  /** The service of the last `Register` of `name` in a history, if any. */
  function LastRegistered(calls: seq<Call>, name: string): Option<Service>
    decreases |calls|
  {
    if |calls| == 0 then None
    else
      var last := calls[|calls| - 1];
      if last.RegisterCall? && last.name == name then Some(last.service)
      else LastRegistered(calls[..|calls| - 1], name)
  }

  /** Last writer wins over any history: a lookup after the history finds the
      service of the last registration of that name, and a name the history
      never registered is looked up as before; lookups, typed retrievals and
      injections in between change nothing. */
  lemma {:induction false} ReplayLastRegistrationWins(c: Container, calls: seq<Call>, name: string)
    requires ValidRun(c, calls)
    ensures Get(Replay(c, calls), name) ==
            match LastRegistered(calls, name)
            case Some(s) => Ok(s)
            case None => Get(c, name)
    decreases |calls|
  {
    if |calls| > 0 {
      var prefix := calls[..|calls| - 1];
      ReplayLastRegistrationWins(c, prefix, name);
    }
  }

  /** From a fresh container, a name is found exactly when it was registered. */
  lemma FreshReplayFindsOnlyRegistered(calls: seq<Call>, name: string)
    requires ValidRun(NewContainer(), calls)
    ensures Get(Replay(NewContainer(), calls), name).Ok? <==> LastRegistered(calls, name).Some?
    ensures LastRegistered(calls, name).None? ==> Get(Replay(NewContainer(), calls), name) == Err(NotFound(name))
  {
    ReplayLastRegistrationWins(NewContainer(), calls, name);
  }
}
