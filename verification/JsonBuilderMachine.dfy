/** The builder as it runs: it pulls events from its parser, keeps the current one in `token`, and
    recurses into containers. */
module JsonBuilderMachine {
  import opened Common
  import opened JsonValue
  import L = JsonLexer
  import S = JsonStack
  import P = JsonParser
  import B = JsonBuilder
  import M = JsonMachine

  class Builder {
    const parser: M.Parser
    var token: Option<L.Event>

    ghost predicate Valid()
      reads this, parser, parser.stack
    {
      parser.Valid() && P.Inv(parser.View())
    }

    constructor (src: string)
      ensures Valid() && parser.View() == P.Start(src) && token == None
      ensures fresh(parser) && fresh(parser.stack)
    {
      parser := new M.Parser(src);
      token := None;
    }

    method Bump()
      requires Valid()
      modifies this, parser, parser.stack
      ensures Valid() && (token, parser.View()) == P.Next(old(parser.View()))
    {
      token := parser.Next();
    }

    method BuildValue() returns (r: B.Outcome)
      requires Valid()
      modifies this, parser, parser.stack
      ensures Valid() && (r, parser.View()) == B.BuildValue(old(token), old(parser.View()))
      decreases P.Fuel(parser.View()), B.Ready(token), 0
    {
      if token.None? {
        return B.Failed(EOFWhileParsingValue);
      }
      match token.value
      case NullValue => r := B.Done(Null);
      case I64Value(n) => r := B.Done(I64(n));
      case U64Value(n) => r := B.Done(U64(n));
      case F64Value(f) => r := B.Done(F64(f));
      case BooleanValue(b) => r := B.Done(Boolean(b));
      case StringValue(s) => r := B.Done(String(s));
      case Error(e) => r := B.Failed(e);
      case ArrayStart => r := BuildArray();
      case ObjectStart => r := BuildObject();
      case ObjectEnd => r := B.Failed(InvalidSyntax);
      case ArrayEnd => r := B.Failed(InvalidSyntax);
    }

    method BuildArray() returns (r: B.Outcome)
      requires Valid()
      modifies this, parser, parser.stack
      ensures Valid()
      ensures var next := P.Next(old(parser.View())); (r, parser.View()) == B.BuildArray(next.0, next.1, [])
      decreases P.Fuel(parser.View()), 0, 1
    {
      ghost var next := P.Next(parser.View());
      Bump();
      var values := [];
      while true
        invariant Valid()
        invariant B.BuildArray(token, parser.View(), values) == B.BuildArray(next.0, next.1, [])
        invariant P.Fuel(parser.View()) <= old(P.Fuel(parser.View()))
        invariant token.Some? ==> P.Fuel(parser.View()) < old(P.Fuel(parser.View()))
        decreases P.Fuel(parser.View()), B.Ready(token)
      {
        if token == Some(L.ArrayEnd) {
          return B.Done(Array(values));
        }
        r := BuildValue();
        if !r.Done? {
          return;
        }
        values := values + [r.value];
        Bump();
      }
    }

    /** The key on top of the parser's stack; `None` where the original panics. */
    method TopKey() returns (key: Option<string>)
      ensures key == B.TopKey(parser.stack.View())
    {
      if parser.stack.stack == [] {
        return None;
      }
      var top := parser.stack.Top();
      match top
      case Some(Key(k)) => key := Some(k);
      case _ => key := None;
    }

    method BuildObject() returns (r: B.Outcome)
      requires Valid()
      modifies this, parser, parser.stack
      ensures Valid()
      ensures var next := P.Next(old(parser.View())); (r, parser.View()) == B.BuildObject(next.0, next.1, [])
      decreases P.Fuel(parser.View()), 0, 1
    {
      hide P.Next, B.TopKey, Insert, B.BuildObject, B.BuildValue;
      ghost var next := P.Next(parser.View());
      Bump();
      var values := [];
      while true
        invariant Valid()
        invariant B.BuildObject(token, parser.View(), values) == B.BuildObject(next.0, next.1, [])
        invariant P.Fuel(parser.View()) <= old(P.Fuel(parser.View()))
        invariant token.Some? ==> P.Fuel(parser.View()) < old(P.Fuel(parser.View()))
        decreases P.Fuel(parser.View()), B.Ready(token)
      {
        B.ObjectStops(token, parser.View(), values);
        if token.None? {
          return B.Failed(EOFWhileParsingObject);
        } else if token.value.ObjectEnd? {
          return B.Done(Object(values));
        } else if token.value.Error? {
          return B.Failed(token.value.code);
        }
        ghost var ev, c := token.value, parser.View();
        B.ObjectStopsInValue(ev, c, values);
        var key := TopKey();
        if key.None? {
          return B.Panicked;
        }
        r := BuildValue();
        if !r.Done? {
          return;
        }
        ghost var d := parser.View();
        B.ObjectTurn(ev, c, values, key.value, r.value, d, P.Next(d), Insert(values, key.value, r.value));
        values := Insert(values, key.value, r.value);
        Bump();
      }
    }

    method Build() returns (r: B.Outcome)
      requires Valid()
      modifies this, parser, parser.stack
      ensures r == B.Build(old(parser.View()))
    {
      Bump();
      r := BuildValue();
      if r.Panicked? {
        return;
      }
      Bump();
      match token
      case None =>
      case Some(Error(e)) => r := B.Failed(e);
      case _ => r := B.Panicked;
    }
  }

  /** `from_str` */
  method FromStr(s: string) returns (r: B.Outcome)
    ensures r == B.FromStr(s)
  {
    var builder := new Builder(s);
    r := builder.Build();
  }
}
