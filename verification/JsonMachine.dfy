/** The parser as it runs: a character iterator with one character of look-ahead, a key stack and a
    state, all updated in place. Every method is proved against the step functions. */
module JsonMachine {
  import opened Common
  import opened Decimals
  import opened JsonValue
  import L = JsonLexer
  import S = JsonStack
  import P = JsonParser
  import Utf8

  /** The value of an operation, or the error code it stops with. */
  datatype Result<+T> = Ok(value: T) | Err(code: ErrorCode)

  /** What an operation returns and leaves unread agrees with a scanner. */
  ghost predicate Agrees<T>(r: Result<T>, unread: string, l: L.Lex<T>) {
    match l
    case Ok(v, rest) => r == Ok(v) && unread == rest
    case Err(e) => r == Err(e)
  }

  class KeyStack {
    var stack: seq<S.InternalElement>
    var strBuffer: seq<Utf8.Byte>

    ghost function View(): S.Stack
      reads this
    {
      S.Stack(stack, strBuffer)
    }

    constructor ()
      ensures View() == S.EMPTY
    {
      stack, strBuffer := [], [];
    }

    method PushKey(key: string)
      modifies this
      ensures View() == S.PushKey(old(View()), key)
    {
      var bytes := Utf8.Encode(key);
      stack := stack + [S.InternalKey(S.AsU16(|strBuffer|), S.AsU16(|bytes|))];
      strBuffer := strBuffer + bytes;
    }

    method PushIndex(index: nat)
      modifies this
      ensures View() == S.PushIndex(old(View()), index)
    {
      stack := stack + [S.InternalIndex(index)];
    }

    method Pop()
      requires stack != []
      modifies this
      ensures View() == S.Pop(old(View()))
    {
      match stack[|stack| - 1]
      case InternalKey(_, sz) =>
        var newSize := S.Shrunk(|strBuffer|, sz);
        strBuffer := strBuffer[..newSize];
        stack := stack[..|stack| - 1];
      case InternalIndex(_) =>
        stack := stack[..|stack| - 1];
    }

    method BumpIndex()
      requires S.LastIsIndex(View())
      modifies this
      ensures View() == S.BumpIndex(old(View()))
    {
      var len := |stack|;
      var idx := S.AsU32(stack[len - 1].index + 1);
      stack := stack[len - 1 := S.InternalIndex(idx)];
    }

    /** `None` stands for the panic on a slice that is not a string. */
    method Top() returns (e: Option<S.Element>)
      requires stack != []
      ensures e == S.Top(View())
    {
      match stack[|stack| - 1]
      case InternalIndex(i) => e := Some(S.Index(i));
      case InternalKey(start, size) =>
        var end := S.AsU16(start + size);
        if start <= end <= |strBuffer| {
          match Utf8.Decode(strBuffer[start..end])
          case Some(k) => e := Some(S.Key(k));
          case None => e := None;
        } else {
          e := None;
        }
    }
  }

  class Parser {
    var rdr: string
    var ch: Option<char>
    const stack: KeyStack
    var state: P.State

    ghost predicate Valid()
      reads this
    {
      ch.None? ==> rdr == ""
    }

    /** The input not yet consumed, the current character first. */
    ghost function Unread(): string
      reads this
    {
      if ch.None? then "" else [ch.value] + rdr
    }

    ghost function View(): P.Cursor
      reads this, stack
    {
      P.Cursor(if state == P.ParseFinished then "" else Unread(), stack.View(), state)
    }

    constructor (text: string)
      ensures Valid() && View() == P.Start(text) && fresh(stack)
    {
      stack := new KeyStack();
      state := P.ParseStart;
      rdr, ch := text, None;
      new;
      if rdr == "" {
        ch := None;
      } else {
        ch, rdr := Some(rdr[0]), rdr[1..];
      }
    }

    method Bump()
      requires Valid()
      modifies this`rdr, this`ch
      ensures Valid() && Unread() == if old(Unread()) == "" then "" else old(Unread())[1..]
    {
      if rdr == "" {
        ch := None;
      } else {
        ch, rdr := Some(rdr[0]), rdr[1..];
      }
    }

    predicate ChIs(c: char)
      reads this
    {
      ch == Some(c)
    }

    predicate ChIsDigit()
      reads this
    {
      ch.Some? && IsDigit(ch.value)
    }

    method ParseWhitespace()
      requires Valid()
      modifies this`rdr, this`ch
      ensures Valid() && Unread() == L.SkipSpace(old(Unread()))
    {
      while ChIs(' ') || ChIs('\n') || ChIs('\t') || ChIs('\r')
        invariant Valid() && L.SkipSpace(Unread()) == L.SkipSpace(old(Unread()))
        decreases |Unread()|
      {
        Bump();
      }
    }

    // Numbers --------------------------------------------------------------------------------

    /** `wrapping_mul` and `wrapping_add` in turn are the arithmetic modulo 2^64. */
    static lemma WrappingSteps(a: nat, d: nat)
      ensures (a * 10 % TWO_64 + d) % TWO_64 == (a * 10 + d) % TWO_64
    {
      var q, r := a * 10 / TWO_64, a * 10 % TWO_64;
      assert a * 10 + d == (r + d) + TWO_64 * q;
    }

    method ParseU64() returns (r: Result<nat>)
      requires Valid()
      modifies this`rdr, this`ch
      ensures Valid() && Agrees(r, Unread(), L.ParseU64(old(Unread())))
    {
      var accum := 0;
      var lastAccum := 0;
      if ChIs('0') {
        Bump();
        if ChIsDigit() {
          return Err(InvalidNumber);
        }
      } else if ChIsDigit() {
        while ChIsDigit()
          invariant Valid() && accum < TWO_64
          invariant L.ScanDigits(Unread(), accum) == L.ScanDigits(old(Unread()), 0)
          decreases |Unread()|
        {
          WrappingSteps(accum, DigitValue(ch.value));
          accum := accum * 10 % TWO_64;
          accum := (accum + DigitValue(ch.value)) % TWO_64;
          if accum <= lastAccum {
            return Err(InvalidNumber);
          }
          Bump();
        }
      } else {
        return Err(InvalidNumber);
      }
      return Ok(accum);
    }

    static lemma DigitTaken(digits: string, s: string)
      ensures (s == "" || !IsDigit(s[0])) ==> L.TakeDigits(s) == ("", s)
      ensures s != "" && IsDigit(s[0]) ==>
                && L.TakeDigits(s).0 != ""
                && digits + L.TakeDigits(s).0 == (digits + [s[0]]) + L.TakeDigits(s[1..]).0
                && L.TakeDigits(s).1 == L.TakeDigits(s[1..]).1
    {
    }

    /** The digits of a fraction or an exponent, at least one. */
    method ParseDigits() returns (r: Result<string>)
      requires Valid()
      modifies this`rdr, this`ch
      ensures Valid()
      ensures var (d, t) := L.TakeDigits(old(Unread()));
              if d == "" then r == Err(InvalidNumber) else r == Ok(d) && Unread() == t
    {
      hide L.TakeDigits;
      DigitTaken("", Unread());
      if !ChIsDigit() {
        return Err(InvalidNumber);
      }
      var digits := "";
      ghost var (all, after) := L.TakeDigits(Unread());
      while ChIsDigit()
        invariant Valid()
        invariant all == digits + L.TakeDigits(Unread()).0 && after == L.TakeDigits(Unread()).1
        decreases |Unread()|
      {
        DigitTaken(digits, Unread());
        digits := digits + [ch.value];
        Bump();
      }
      DigitTaken(digits, Unread());
      assert digits + "" == digits;
      return Ok(digits);
    }

    method ParseDecimal() returns (r: Result<string>)
      requires Valid() && ChIs('.')
      modifies this`rdr, this`ch
      ensures Valid() && Agrees(r, Unread(), L.ParseDecimal(old(Unread())))
    {
      Bump();
      r := ParseDigits();
    }

    method ParseExponent() returns (r: Result<Exponent>)
      requires Valid() && (ChIs('e') || ChIs('E'))
      modifies this`rdr, this`ch
      ensures Valid() && Agrees(r, Unread(), L.ParseExponent(old(Unread())))
    {
      Bump();
      var negExp := false;
      if ChIs('+') {
        Bump();
      } else if ChIs('-') {
        Bump();
        negExp := true;
      }
      var d := ParseDigits();
      r := match d case Ok(ds) => Ok(Exponent(negExp, ds)) case Err(e) => Err(e);
    }

    method ParseNumber() returns (r: Result<L.Event>)
      requires Valid()
      modifies this`rdr, this`ch
      ensures Valid() && Agrees(r, Unread(), L.ParseNumber(old(Unread())))
    {
      var neg := ChIs('-');
      if neg {
        Bump();
      }
      var res := ParseU64();
      if res.Err? {
        return Err(res.code);
      }
      r := FinishNumber(neg, res.value);
    }

    method FinishNumber(neg: bool, res: nat) returns (r: Result<L.Event>)
      requires Valid() && res < TWO_64
      modifies this`rdr, this`ch
      ensures Valid() && Agrees(r, Unread(), L.FinishNumber(neg, res, old(Unread())))
    {
      if ChIs('.') || ChIs('e') || ChIs('E') {
        var frac, exp := None, None;
        if ChIs('.') {
          var d := ParseDecimal();
          if d.Err? {
            return Err(d.code);
          }
          frac := Some(d.value);
        }
        if ChIs('e') || ChIs('E') {
          var x := ParseExponent();
          if x.Err? {
            return Err(x.code);
          }
          exp := Some(x.value);
        }
        return Ok(L.F64Value(Float(neg, res, frac, exp)));
      } else if neg {
        var v := L.NegateAsI64(res);
        if v > 0 {
          return Err(InvalidNumber);
        }
        return Ok(L.I64Value(v));
      } else {
        return Ok(L.U64Value(res));
      }
    }

    // Strings --------------------------------------------------------------------------------

    /** Called on the character before the first digit, returns on the last digit. */
    method DecodeHexEscape() returns (r: Result<nat>)
      requires Valid() && ch.Some?
      modifies this`rdr, this`ch
      ensures Valid()
      ensures match L.DecodeHexEscape(old(Unread())[1..])
              case Ok(n, rest) => r == Ok(n) && ch.Some? && Unread()[1..] == rest
              case Err(e) => r == Err(e)
    {
      ghost var s := Unread()[1..];
      var i, n := 0, 0;
      while i < 4
        invariant Valid() && ch.Some? && 0 <= i <= 4 && i <= |s| && Unread()[1..] == s[i..]
        invariant forall k :: 0 <= k < i ==> L.IsHex(s[k])
        invariant i == 0 ==> n == 0
        invariant i == 1 ==> n == L.HexValue(s[0])
        invariant i == 2 ==> n == L.HexValue(s[0]) * 16 + L.HexValue(s[1])
        invariant i == 3 ==> n == (L.HexValue(s[0]) * 16 + L.HexValue(s[1])) * 16 + L.HexValue(s[2])
        invariant i == 4 ==> n == L.Hex4Value(s[..4])
      {
        Bump();
        if ch.None? || !L.IsHex(ch.value) {
          return Err(InvalidEscape);
        }
        assert ch.value == s[i];
        n := n * 16 + L.HexValue(ch.value);
        i := i + 1;
      }
      return Ok(n);
    }

    /** A `u` escape, called on the `u`, returns on its last character. */
    method DecodeUnicodeEscape() returns (r: Result<char>)
      requires Valid() && ch.Some?
      modifies this`rdr, this`ch
      ensures Valid()
      ensures match L.DecodeUnicodeEscape(old(Unread())[1..])
              case Ok(c, rest) => r == Ok(c) && ch.Some? && Unread()[1..] == rest
              case Err(e) => r == Err(e)
    {
      var n1 := DecodeHexEscape();
      if n1.Err? {
        return Err(n1.code);
      }
      if L.IsLowSurrogate(n1.value) {
        return Err(LoneLeadingSurrogateInHexEscape);
      }
      if L.IsHighSurrogate(n1.value) {
        Bump();
        var a := ch;
        Bump();
        var b := ch;
        if a != Some('\\') || b != Some('u') {
          return Err(UnexpectedEndOfHexEscape);
        }
        var n2 := DecodeHexEscape();
        if n2.Err? {
          return Err(n2.code);
        }
        if !L.IsLowSurrogate(n2.value) {
          return Err(LoneLeadingSurrogateInHexEscape);
        }
        return Ok(L.JoinSurrogates(n1.value, n2.value));
      }
      return Ok(n1.value as char);
    }

    /** An escape, called on the character after the backslash, returns on its last character. */
    method DecodeEscape() returns (r: Result<char>)
      requires Valid() && ch.Some?
      modifies this`rdr, this`ch
      ensures Valid()
      ensures match L.DecodeEscape(old(Unread()))
              case Ok(c, rest) => r == Ok(c) && ch.Some? && Unread()[1..] == rest
              case Err(e) => r == Err(e)
    {
      var short := L.ShortEscape(ch.value);
      if short.Some? {
        return Ok(short.value);
      } else if ChIs('u') {
        r := DecodeUnicodeEscape();
      } else {
        return Err(InvalidEscape);
      }
    }

    /** The scanner seen from inside a literal, with a backslash already consumed or not. */
    static ghost function Tail(escape: bool, s: string): L.Lex<string> {
      if !escape then L.ParseStr(s)
      else match L.DecodeEscape(s)
        case Err(e) => L.Err(e)
        case Ok(c, t) => L.Prepend([c], L.ParseStr(t))
    }

    static lemma PrependTwice(a: string, b: string, l: L.Lex<string>)
      ensures L.Prepend(a, L.Prepend(b, l)) == L.Prepend(a + b, l)
    {
      if l.Ok? {
        assert a + (b + l.value) == a + b + l.value;
      }
    }

    static lemma PrependNothing(l: L.Lex<string>)
      ensures L.Prepend("", l) == l
    {
      if l.Ok? {
        assert "" + l.value == l.value;
      }
    }

    /** Called on the opening quote. */
    method ParseStr() returns (r: Result<string>)
      requires Valid() && ch.Some?
      modifies this`rdr, this`ch
      ensures Valid() && Agrees(r, Unread(), L.ParseStr(old(Unread())[1..]))
    {
      var escape, res := false, "";
      ghost var s := Unread()[1..];
      PrependNothing(L.ParseStr(s));
      while true
        invariant Valid() && ch.Some?
        invariant L.ParseStr(s) == L.Prepend(res, Tail(escape, Unread()[1..]))
        decreases |Unread()|, escape
      {
        Bump();
        if ch.None? {
          return Err(EOFWhileParsingString);
        }
        if escape {
          var c := DecodeEscape();
          if c.Err? {
            return Err(c.code);
          }
          PrependTwice(res, [c.value], L.ParseStr(Unread()[1..]));
          res := res + [c.value];
          escape := false;
        } else if ChIs('\\') {
          escape := true;
        } else if ChIs('"') {
          Bump();
          assert res + "" == res;
          return Ok(res);
        } else {
          PrependTwice(res, [ch.value], L.ParseStr(Unread()[1..]));
          res := res + [ch.value];
        }
      }
    }

    // Values ---------------------------------------------------------------------------------

    /** One letter of a word. */
    static lemma WordStep(u: string, w: string, value: L.Event)
      ensures w == "" ==> L.ParseIdent(u, w, value) == L.Ok(value, u)
      ensures w != "" && (u == "" || u[0] != w[0]) ==> L.ParseIdent(u, w, value) == L.Err(InvalidSyntax)
      ensures w != "" && u != "" && u[0] == w[0] ==> L.ParseIdent(u, w, value) == L.ParseIdent(u[1..], w[1..], value)
    {
      if w != "" && u != "" && u[0] == w[0] {
        assert u == [u[0]] + u[1..] && w == [w[0]] + w[1..];
        assert w <= u <==> w[1..] <= u[1..];
      }
    }

    /** Called on the first letter, with the letters that have to follow. */
    method ParseIdent(ident: string, value: L.Event) returns (r: Result<L.Event>)
      requires Valid() && ch.Some?
      modifies this`rdr, this`ch
      ensures Valid()
      ensures Agrees(r, Unread(), L.ParseIdent(old(Unread()), [old(ch).value] + ident, value))
    {
      hide L.ParseIdent;
      ghost var all := L.ParseIdent(Unread(), [ch.value] + ident, value);
      WordStep(Unread(), [ch.value] + ident, value);
      var i := 0;
      assert ([ch.value] + ident)[1..] == ident[i..];
      while i < |ident|
        invariant Valid() && ch.Some? && 0 <= i <= |ident| && all == L.ParseIdent(Unread()[1..], ident[i..], value)
      {
        Bump();
        WordStep(Unread(), ident[i..], value);
        if ch != Some(ident[i]) {
          return Err(InvalidSyntax);
        }
        assert ident[i..][1..] == ident[i + 1..];
        i := i + 1;
      }
      Bump();
      WordStep(Unread(), ident[i..], value);
      return Ok(value);
    }

    method ParseValue() returns (r: Result<L.Event>)
      requires Valid()
      modifies this`rdr, this`ch
      ensures Valid() && Agrees(r, Unread(), L.ParseValue(old(Unread())))
    {
      if ch.None? {
        return Err(EOFWhileParsingValue);
      }
      match ch.value
      case 'n' => r := ParseIdent("ull", L.NullValue);
      case 't' => r := ParseIdent("rue", L.BooleanValue(true));
      case 'f' => r := ParseIdent("alse", L.BooleanValue(false));
      case '"' =>
        var str := ParseStr();
        r := match str case Ok(v) => Ok(L.StringValue(v)) case Err(e) => Err(e);
      case '[' =>
        Bump();
        r := Ok(L.ArrayStart);
      case '{' =>
        Bump();
        r := Ok(L.ObjectStart);
      case c =>
        if IsDigit(c) || c == '-' {
          r := ParseNumber();
        } else {
          r := Err(InvalidSyntax);
        }
    }

    method ErrorEvent(code: ErrorCode) returns (ev: L.Event)
      modifies this`state
      ensures (ev, View()) == P.Fail(stack.View(), code)
    {
      state := P.ParseFinished;
      ev := L.Error(code);
    }

    /** A value at the current position, and the state after it. */
    method ValueOr(after: P.State) returns (ev: L.Event)
      requires Valid() && after == P.Resume(stack.View()) && state != P.ParseFinished
      modifies this
      ensures Valid() && (ev, View()) == P.ValueAt(old(Unread()), stack.View(), after)
    {
      var val := ParseValue();
      match val
      case Err(e) => ev := ErrorEvent(e);
      case Ok(v) =>
        ev := v;
        state := match v
          case ArrayStart => P.ParseArray(true)
          case ObjectStart => P.ParseObject(true)
          case _ => after;
    }

    /** After a closing bracket. */
    method Close(closing: L.Event) returns (ev: L.Event)
      requires Valid() && ch.Some?
      modifies this
      ensures Valid() && (ev, View()) == P.Close(closing, old(Unread()), stack.View())
    {
      state := if stack.stack == [] then P.ParseBeforeFinish
               else if stack.stack[|stack.stack| - 1].InternalIndex? then P.ParseArrayComma
               else P.ParseObjectComma;
      assert state == P.Resume(stack.View());
      hide P.Resume, P.Inv, P.Fuel, S.IsEmpty, S.LastIsIndex;
      Bump();
      ev := closing;
    }

    method ParseArray(first: bool) returns (ev: L.Event)
      requires Valid() && (first || S.LastIsIndex(stack.View())) && state != P.ParseFinished
      modifies this, stack
      ensures Valid() && (ev, View()) == P.ArrayStep(old(Unread()), old(stack.View()), first)
    {
      if ChIs(']') {
        if !first {
          ev := ErrorEvent(InvalidSyntax);
        } else {
          ev := Close(L.ArrayEnd);
        }
      } else {
        if first {
          stack.PushIndex(0);
        }
        ev := ValueOr(P.ParseArrayComma);
      }
    }

    method ParseObject(first: bool) returns (ev: L.Event)
      requires Valid() && state != P.ParseFinished
      modifies this, stack
      ensures Valid() && (ev, View()) == P.ObjectStep(old(Unread()), old(stack.View()), first)
    {
      if ChIs('}') {
        if !first {
          if stack.stack == [] {
            ev := ErrorEvent(TrailingComma);
            return;
          } else {
            stack.Pop();
          }
        }
        ev := Close(L.ObjectEnd);
        return;
      }
      if ch.None? {
        ev := ErrorEvent(EOFWhileParsingObject);
        return;
      }
      if !ChIs('"') {
        ev := ErrorEvent(KeyMustBeAString);
        return;
      }
      var s := ParseStr();
      if s.Err? {
        ev := ErrorEvent(s.code);
        return;
      }
      ParseWhitespace();
      if ch.None? {
        ev := ErrorEvent(EOFWhileParsingObject);
        return;
      } else if !ChIs(':') {
        ev := ErrorEvent(ExpectedColon);
        return;
      }
      stack.PushKey(s.value);
      Bump();
      ParseWhitespace();
      ev := ValueOr(P.ParseObjectComma);
    }

    /** `None` once a comma has led on to the next element. */
    method ParseArrayCommaOrEnd() returns (ev: Option<L.Event>)
      requires Valid() && state == P.ParseArrayComma && S.LastIsIndex(stack.View())
      modifies this, stack
      ensures Valid()
      ensures if L.At(old(Unread()), ',')
              then ev.None? && View() == P.Cursor(old(Unread())[1..], S.BumpIndex(old(stack.View())), P.ParseArray(false))
              else ev.Some? && (ev.value, View()) == P.ArrayCommaStep(old(Unread()), old(stack.View()))
    {
      hide P.ArrayStep, P.Close, S.Pop, S.BumpIndex;
      ev := None;
      if ChIs(',') {
        stack.BumpIndex();
        state := P.ParseArray(false);
        Bump();
      } else {
        var end: L.Event;
        if ChIs(']') {
          stack.Pop();
          end := Close(L.ArrayEnd);
        } else if ch.None? {
          end := ErrorEvent(EOFWhileParsingArray);
        } else {
          end := ErrorEvent(InvalidSyntax);
        }
        ev := Some(end);
      }
    }

    method ParseObjectEnd() returns (ev: L.Event)
      requires Valid() && state != P.ParseFinished && !ChIs(',')
      modifies this
      ensures Valid()
      ensures (ev, View()) == if L.At(old(Unread()), '}') then P.Close(L.ObjectEnd, old(Unread()), stack.View())
                              else P.Fail(stack.View(), if old(Unread()) == "" then EOFWhileParsingObject else InvalidSyntax)
    {
      if ChIs('}') {
        ev := Close(L.ObjectEnd);
      } else if ch.None? {
        ev := ErrorEvent(EOFWhileParsingObject);
      } else {
        ev := ErrorEvent(InvalidSyntax);
      }
    }

    static ghost function Rank(s: P.State): nat {
      if s.ParseArrayComma? || s.ParseObjectComma? then 1 else 0
    }

    /** Whitespace is skipped once. */
    static lemma Skipped(s: string)
      ensures L.SkipSpace(L.SkipSpace(s)) == L.SkipSpace(s)
    {
    }

    method Parse() returns (ev: L.Event)
      requires Valid() && P.Inv(View()) && state != P.ParseFinished && state != P.ParseBeforeFinish
      modifies this, stack
      ensures Valid() && (ev, View()) == P.Parse(old(View()))
    {
      hide P.ObjectStep, P.ArrayStep, P.ValueAt, P.Close, S.Pop, S.BumpIndex, L.SkipSpace;
      while true
        invariant Valid() && P.Inv(View()) && state != P.ParseFinished && state != P.ParseBeforeFinish
        invariant P.Parse(View()) == P.Parse(old(View()))
        decreases Rank(state)
      {
        Skipped(Unread());
        ParseWhitespace();
        match state
        case ParseStart =>
          ev := ValueOr(P.ParseBeforeFinish);
          return;
        case ParseArray(first) =>
          ev := ParseArray(first);
          return;
        case ParseArrayComma =>
          var end := ParseArrayCommaOrEnd();
          if end.Some? {
            return end.value;
          }
        case ParseObject(first) =>
          ev := ParseObject(first);
          return;
        case ParseObjectComma =>
          stack.Pop();
          if ChIs(',') {
            state := P.ParseObject(false);
            Bump();
          } else {
            ev := ParseObjectEnd();
            return;
          }
      }
    }

    /** `Iterator::next` */
    method Next() returns (ev: Option<L.Event>)
      requires Valid() && P.Inv(View())
      modifies this, stack
      ensures Valid() && P.Inv(View()) && (ev, View()) == P.Next(old(View()))
    {
      if state == P.ParseFinished {
        return None;
      }
      if state == P.ParseBeforeFinish {
        ParseWhitespace();
        if ch.None? {
          state := P.ParseFinished;
          return None;
        } else {
          var e := ErrorEvent(TrailingCharacters);
          return Some(e);
        }
      }
      var e := Parse();
      return Some(e);
    }
  }
}
