/** The interruptible event parser: one call of `next` as a step on the unread input, the
    position stack and the parser state. */
module JsonParser {
  import opened Common
  import opened JsonValue
  import opened JsonLexer
  import opened JsonStack

  datatype State =
    | ParseArray(first: bool)
    | ParseArrayComma
    | ParseObject(first: bool)
    | ParseObjectComma
    | ParseStart
    | ParseBeforeFinish
    | ParseFinished

  /** A parser at rest. Once finished it never reads again, so no input is left. */
  datatype Cursor = Cursor(rest: string, stack: Stack, state: State)

  function Start(text: string): (c: Cursor)
    ensures Inv(c)
  {
    Cursor(text, EMPTY, ParseStart)
  }

  /** Each state finds on the stack what its code takes for granted. */
  ghost predicate Inv(c: Cursor) {
    match c.state
    case ParseArray(first) => first || LastIsIndex(c.stack)
    case ParseArrayComma => LastIsIndex(c.stack)
    case ParseObject(_) => true
    case ParseObjectComma => LastIsKey(c.stack)
    case ParseStart => IsEmpty(c.stack)
    case ParseBeforeFinish => IsEmpty(c.stack)
    case ParseFinished => c.rest == ""
  }

  /** The state after a value or a closing bracket, by what is on top of the stack. */
  function Resume(st: Stack): State {
    if IsEmpty(st) then ParseBeforeFinish
    else if LastIsIndex(st) then ParseArrayComma
    else ParseObjectComma
  }

  function Enter(ev: Event, after: State): State {
    match ev
    case ArrayStart => ParseArray(true)
    case ObjectStart => ParseObject(true)
    case _ => after
  }

  function Fail(st: Stack, code: ErrorCode): (Event, Cursor) {
    (Error(code), Cursor("", st, ParseFinished))
  }

  /** How much a parser can still do: every event uses some of it up. */
  ghost function Fuel(c: Cursor): nat {
    |c.rest| + (if c.state == ParseFinished then 0 else 1)
  }

  function ValueAt(s: string, st: Stack, after: State): (r: (Event, Cursor))
    requires after == Resume(st)
    ensures Inv(r.1) && Fuel(r.1) <= |s|
  {
    match ParseValue(s)
    case Err(e) => Fail(st, e)
    case Ok(ev, rest) => (ev, Cursor(rest, st, Enter(ev, after)))
  }

  function Close(ev: Event, s: string, st: Stack): (r: (Event, Cursor))
    requires s != ""
    ensures Inv(r.1) && Fuel(r.1) <= |s|
  {
    (ev, Cursor(s[1..], st, Resume(st)))
  }

  /** `parse_array` */
  function ArrayStep(s: string, st: Stack, first: bool): (r: (Event, Cursor))
    requires (first || LastIsIndex(st))
    ensures Inv(r.1) && Fuel(r.1) <= |s|
  {
    if At(s, ']') then
      if !first then Fail(st, InvalidSyntax) else Close(ArrayEnd, s, st)
    else ValueAt(s, if first then PushIndex(st, 0) else st, ParseArrayComma)
  }

  /** `parse_array_comma_or_end`, and the element after the comma */
  function ArrayCommaStep(s: string, st: Stack): (r: (Event, Cursor))
    requires LastIsIndex(st)
    ensures Inv(r.1) && Fuel(r.1) <= |s|
  {
    if At(s, ',') then ArrayStep(SkipSpace(s[1..]), BumpIndex(st), false)
    else if At(s, ']') then Close(ArrayEnd, s, Pop(st))
    else Fail(st, if s == "" then EOFWhileParsingArray else InvalidSyntax)
  }

  /** `parse_object`. After a comma, a closing brace pops one more element when there is one. */
  function ObjectStep(s: string, st: Stack, first: bool): (r: (Event, Cursor))
    ensures Inv(r.1) && Fuel(r.1) <= |s|
  {
    if At(s, '}') then
      if first then Close(ObjectEnd, s, st)
      else if IsEmpty(st) then Fail(st, TrailingComma)
      else Close(ObjectEnd, s, Pop(st))
    else if s == "" then Fail(st, EOFWhileParsingObject)
    else if s[0] != '"' then Fail(st, KeyMustBeAString)
    else match ParseStr(s[1..])
      case Err(e) => Fail(st, e)
      case Ok(key, rest) =>
        var t := SkipSpace(rest);
        if t == "" then Fail(st, EOFWhileParsingObject)
        else if t[0] != ':' then Fail(st, ExpectedColon)
        else ValueAt(SkipSpace(t[1..]), PushKey(st, key), ParseObjectComma)
  }

  function ObjectCommaStep(s: string, st: Stack): (r: (Event, Cursor))
    requires LastIsKey(st)
    ensures Inv(r.1) && Fuel(r.1) <= |s|
  {
    var up := Pop(st);
    if At(s, ',') then ObjectStep(SkipSpace(s[1..]), up, false)
    else if At(s, '}') then Close(ObjectEnd, s, up)
    else Fail(up, if s == "" then EOFWhileParsingObject else InvalidSyntax)
  }

  function Parse(c: Cursor): (r: (Event, Cursor))
    requires Inv(c) && c.state != ParseFinished && c.state != ParseBeforeFinish
    ensures Inv(r.1) && Fuel(r.1) < Fuel(c)
  {
    var s := SkipSpace(c.rest);
    match c.state
    case ParseStart => ValueAt(s, c.stack, ParseBeforeFinish)
    case ParseArray(first) => ArrayStep(s, c.stack, first)
    case ParseArrayComma => ArrayCommaStep(s, c.stack)
    case ParseObject(first) => ObjectStep(s, c.stack, first)
    case ParseObjectComma => ObjectCommaStep(s, c.stack)
  }

  /** `Iterator::next` */
  function Next(c: Cursor): (r: (Option<Event>, Cursor))
    requires Inv(c)
    ensures Inv(r.1)
    ensures r.0.Some? ==> Fuel(r.1) < Fuel(c)
    ensures r.0.None? ==> Fuel(r.1) <= Fuel(c) && r.1.state == ParseFinished
  {
    match c.state
    case ParseFinished => (None, c)
    case ParseBeforeFinish =>
      if SkipSpace(c.rest) == "" then (None, Cursor("", c.stack, ParseFinished))
      else var (ev, d) := Fail(c.stack, TrailingCharacters); (Some(ev), d)
    case _ => var (ev, d) := Parse(c); (Some(ev), d)
  }

  /** All events a parser still has to give. */
  function Events(c: Cursor): (evs: seq<Event>)
    requires Inv(c)
    decreases Fuel(c)
  {
    var (ev, d) := Next(c);
    if ev.None? then [] else [ev.value] + Events(d)
  }
}
