/** The builder that turns parser events into a value, reading object keys off the parser's
    stack. A panic of the original is an outcome of its own. */
module JsonBuilder {
  import opened Common
  import opened JsonValue
  import opened JsonLexer
  import opened JsonStack
  import opened JsonParser

  datatype Outcome = Done(value: Json) | Failed(code: ErrorCode) | Panicked

  function ScalarOf(ev: Event): Option<Json> {
    match ev
    case NullValue => Some(Null)
    case I64Value(n) => Some(I64(n))
    case U64Value(n) => Some(U64(n))
    case F64Value(f) => Some(F64(f))
    case BooleanValue(b) => Some(Boolean(b))
    case StringValue(s) => Some(String(s))
    case _ => None
  }

  ghost function Ready(token: Option<Event>): nat {
    if token.Some? then 1 else 0
  }

  /** `build_value`, with the current token and the parser just past it */
  function BuildValue(token: Option<Event>, c: Cursor): (r: (Outcome, Cursor))
    requires Inv(c)
    ensures Inv(r.1) && Fuel(r.1) <= Fuel(c)
    ensures r.0.Done? ==> token.Some?
    decreases Fuel(c), Ready(token), 0
  {
    if token.None? then (Failed(EOFWhileParsingValue), c)
    else match token.value
      case Error(e) => (Failed(e), c)
      case ArrayStart => var (t, d) := Next(c); BuildArray(t, d, [])
      case ObjectStart => var (t, d) := Next(c); BuildObject(t, d, [])
      case ObjectEnd => (Failed(InvalidSyntax), c)
      case ArrayEnd => (Failed(InvalidSyntax), c)
      case ev => (Done(ScalarOf(ev).value), c)
  }

  /** The loop of `build_array` */
  function BuildArray(token: Option<Event>, c: Cursor, values: seq<Json>): (r: (Outcome, Cursor))
    requires Inv(c)
    ensures Inv(r.1) && Fuel(r.1) <= Fuel(c)
    decreases Fuel(c), Ready(token), 1
  {
    if token == Some(ArrayEnd) then (Done(Array(values)), c)
    else
      var (res, d) := BuildValue(token, c);
      if !res.Done? then (res, d)
      else var (t, e) := Next(d); BuildArray(t, e, values + [res.value])
  }

  /** The key on top of the stack; `None` where the original panics. */
  function TopKey(st: Stack): Option<string> {
    if IsEmpty(st) then None
    else match Top(st)
      case Some(Key(k)) => Some(k)
      case _ => None
  }

  /** The loop of `build_object` */
  function BuildObject(token: Option<Event>, c: Cursor, members: seq<Member>): (r: (Outcome, Cursor))
    requires Inv(c)
    ensures Inv(r.1) && Fuel(r.1) <= Fuel(c)
    decreases Fuel(c), Ready(token), 1
  {
    if token.None? then (Failed(EOFWhileParsingObject), c)
    else if token.value == ObjectEnd then (Done(Object(members)), c)
    else if token.value.Error? then (Failed(token.value.code), c)
    else
      var key := TopKey(c.stack);
      if key.None? then (Panicked, c)
      else
        var (res, d) := BuildValue(token, c);
        if !res.Done? then (res, d)
        else var (t, e) := Next(d); BuildObject(t, e, Insert(members, key.value, res.value))
  }

  /** One turn of the array loop. */
  lemma ArrayTurn(ev: Event, c: Cursor, values: seq<Json>, v: Json, d: Cursor, next: (Option<Event>, Cursor))
    requires Inv(c) && !ev.ArrayEnd? && BuildValue(Some(ev), c) == (Done(v), d) && Next(d) == next
    ensures BuildArray(Some(ev), c, values) == BuildArray(next.0, next.1, values + [v])
  {
    hide BuildValue, Next;
  }

  lemma ArrayStops(ev: Event, c: Cursor, values: seq<Json>)
    requires Inv(c) && !ev.ArrayEnd? && !BuildValue(Some(ev), c).0.Done?
    ensures BuildArray(Some(ev), c, values) == BuildValue(Some(ev), c)
  {
    hide BuildValue, Next;
    var r := BuildValue(Some(ev), c);
  }

  lemma ArrayEnds(c: Cursor, values: seq<Json>)
    requires Inv(c)
    ensures BuildArray(Some(ArrayEnd), c, values) == (Done(Array(values)), c)
  {
  }

  /** One turn of the object loop. */
  lemma ObjectTurn(ev: Event, c: Cursor, ms: seq<Member>, key: string, v: Json, d: Cursor,
                   next: (Option<Event>, Cursor), now: seq<Member>)
    requires Inv(c) && !ev.ObjectEnd? && !ev.Error? && BuildValue(Some(ev), c) == (Done(v), d) && Next(d) == next
    requires TopKey(c.stack) == Some(key) && now == Insert(ms, key, v)
    ensures BuildObject(Some(ev), c, ms) == BuildObject(next.0, next.1, now)
  {
    hide BuildValue, Next, TopKey, Insert;
  }

  /** Where the object loop stops. */
  lemma ObjectStops(token: Option<Event>, c: Cursor, ms: seq<Member>)
    requires Inv(c)
    ensures token.None? ==> BuildObject(token, c, ms) == (Failed(EOFWhileParsingObject), c)
    ensures token == Some(ObjectEnd) ==> BuildObject(token, c, ms) == (Done(Object(ms)), c)
    ensures token.Some? && token.value.Error? ==> BuildObject(token, c, ms) == (Failed(token.value.code), c)
  {
    hide Next, TopKey, Insert;
  }

  /** Where the object loop stops on a value. */
  lemma ObjectStopsInValue(ev: Event, c: Cursor, ms: seq<Member>)
    requires Inv(c) && !ev.ObjectEnd? && !ev.Error?
    ensures TopKey(c.stack).None? ==> BuildObject(Some(ev), c, ms) == (Panicked, c)
    ensures TopKey(c.stack).Some? && !BuildValue(Some(ev), c).0.Done? ==>
              BuildObject(Some(ev), c, ms) == BuildValue(Some(ev), c)
  {
    hide BuildValue, Next, TopKey, Insert;
    var r := BuildValue(Some(ev), c);
  }

  function Build(c: Cursor): Outcome
    requires Inv(c)
  {
    var (token, d) := Next(c);
    var (res, e) := BuildValue(token, d);
    if res.Panicked? then Panicked
    else
      var (last, _) := Next(e);
      if last.None? then res
      else if last.value.Error? then Failed(last.value.code)
      else Panicked
  }

  function FromStr(text: string): Outcome {
    Build(Start(text))
  }
}
