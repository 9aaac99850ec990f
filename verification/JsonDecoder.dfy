/** The token stream of the JSON library: a cursor, a state and a stack of brackets. */
module JsonDecoder {
  import opened Wrappers
  import opened Json

  datatype Token = Delimiter(bracket: Lexeme) | Text(text: string) | Number

  datatype TokenError = EndOfInput | SyntaxError

  /** Where the stream stands between two tokens. */
  datatype TokenState =
    | TopValue
    | ArrayStart | ArrayNext | ArrayComma
    | ObjectStart | ObjectKey | ObjectColon | ObjectNext | ObjectComma

  datatype Cursor = Cursor(state: TokenState, stack: seq<TokenState>, rest: seq<Lexeme>)

  predicate ValueAllowed(state: TokenState) {
    state.TopValue? || state.ArrayStart? || state.ArrayNext? || state.ObjectNext?
  }

  /** The state after a complete value. */
  function ValueEnd(state: TokenState): TokenState {
    match state
    case ArrayStart => ArrayComma
    case ArrayNext => ArrayComma
    case ObjectNext => ObjectComma
    case _ => state
  }

  /** The separator that may stand before the next token, if there is one. */
  function SkipSeparator(c: Cursor): Option<Cursor> {
    if c.rest == [] then Some(c)
    else if c.rest[0] == Colon then
      if c.state.ObjectColon? then Some(Cursor(ObjectNext, c.stack, c.rest[1..])) else None
    else if c.rest[0] == Comma then
      if c.state.ArrayComma? then Some(Cursor(ArrayNext, c.stack, c.rest[1..]))
      else if c.state.ObjectComma? then Some(Cursor(ObjectKey, c.stack, c.rest[1..]))
      else None
    else Some(c)
  }

  function Open(c: Cursor, state: TokenState): (Token, Cursor)
    requires c.rest != []
  {
    (Delimiter(c.rest[0]), Cursor(state, c.stack + [c.state], c.rest[1..]))
  }

  function Close(c: Cursor): (Token, Cursor)
    requires c.rest != [] && c.stack != []
  {
    var top := |c.stack| - 1;
    (Delimiter(c.rest[0]), Cursor(ValueEnd(c.stack[top]), c.stack[..top], c.rest[1..]))
  }

  /** One token that is not a separator. */
  function Plain(c: Cursor): Result<(Token, Cursor), TokenError> {
    if c.rest == [] then Err(EndOfInput)
    else match c.rest[0]
      case LBracket => if ValueAllowed(c.state) then Ok(Open(c, ArrayStart)) else Err(SyntaxError)
      case LBrace => if ValueAllowed(c.state) then Ok(Open(c, ObjectStart)) else Err(SyntaxError)
      case RBracket =>
        if (c.state.ArrayStart? || c.state.ArrayComma?) && c.stack != [] then Ok(Close(c)) else Err(SyntaxError)
      case RBrace =>
        if (c.state.ObjectStart? || c.state.ObjectComma?) && c.stack != [] then Ok(Close(c)) else Err(SyntaxError)
      case Str(text) =>
        if c.state.ObjectStart? || c.state.ObjectKey? then Ok((Text(text), Cursor(ObjectColon, c.stack, c.rest[1..])))
        else if ValueAllowed(c.state) then Ok((Text(text), Cursor(ValueEnd(c.state), c.stack, c.rest[1..])))
        else Err(SyntaxError)
      case Scalar =>
        if ValueAllowed(c.state) then Ok((Number, Cursor(ValueEnd(c.state), c.stack, c.rest[1..])))
        else Err(SyntaxError)
      case _ => Err(SyntaxError)
  }

  /** The next token and the cursor behind it. Separators are skipped as long as the
    * state allows them; after one, the state allows no further one. */
  function Next(c: Cursor): Result<(Token, Cursor), TokenError> {
    match SkipSeparator(c)
    case None => Err(SyntaxError)
    case Some(next) => Plain(next)
  }

  /** There is another element or member, or an error that the next token will report. */
  predicate More(c: Cursor) {
    c.rest != [] && c.rest[0] != RBracket && c.rest[0] != RBrace
  }

  class Decoder {
    var state: TokenState
    var stack: seq<TokenState>
    var rest: seq<Lexeme>

    ghost function At(): Cursor
      reads this
    {
      Cursor(state, stack, rest)
    }

    constructor (data: seq<Lexeme>)
      ensures At() == Cursor(TopValue, [], data)
    {
      state, stack, rest := TopValue, [], data;
    }

    predicate HasMore()
      reads this
    {
      rest != [] && rest[0] != RBracket && rest[0] != RBrace
    }

    method Token() returns (r: Result<Token, TokenError>)
      modifies this
      ensures
        var next := Next(old(At()));
        && r.Ok? == next.Ok?
        && (r.Ok? ==> r.value == next.value.0 && At() == next.value.1)
        && (r.Err? ==> r.error == next.error)
    {
      ghost var start := At();
      while true
        invariant At() == start || (SkipSeparator(start) == Some(At()) && rest != start.rest)
        decreases |rest|
      {
        if rest == [] {
          return Err(EndOfInput);
        }
        match rest[0] {
          case LBracket =>
            if !ValueAllowed(state) {
              return Err(SyntaxError);
            }
            stack, state, rest := stack + [state], ArrayStart, rest[1..];
            return Ok(Delimiter(LBracket));
          case LBrace =>
            if !ValueAllowed(state) {
              return Err(SyntaxError);
            }
            stack, state, rest := stack + [state], ObjectStart, rest[1..];
            return Ok(Delimiter(LBrace));
          case RBracket =>
            if (state != ArrayStart && state != ArrayComma) || stack == [] {
              return Err(SyntaxError);
            }
            Pop();
            return Ok(Delimiter(RBracket));
          case RBrace =>
            if (state != ObjectStart && state != ObjectComma) || stack == [] {
              return Err(SyntaxError);
            }
            Pop();
            return Ok(Delimiter(RBrace));
          case Colon =>
            if state != ObjectColon {
              return Err(SyntaxError);
            }
            state, rest := ObjectNext, rest[1..];
          case Comma =>
            if state == ArrayComma {
              state, rest := ArrayNext, rest[1..];
            } else if state == ObjectComma {
              state, rest := ObjectKey, rest[1..];
            } else {
              return Err(SyntaxError);
            }
          case Str(text) =>
            if state == ObjectStart || state == ObjectKey {
              state, rest := ObjectColon, rest[1..];
              return Ok(Text(text));
            }
            if !ValueAllowed(state) {
              return Err(SyntaxError);
            }
            state, rest := ValueEnd(state), rest[1..];
            return Ok(Text(text));
          case Scalar =>
            if !ValueAllowed(state) {
              return Err(SyntaxError);
            }
            state, rest := ValueEnd(state), rest[1..];
            return Ok(Number);
          case Bad =>
            return Err(SyntaxError);
        }
      }
    }

    method Pop()
      requires rest != [] && stack != []
      modifies this
      ensures At() == Close(old(At())).1
    {
      var top := |stack| - 1;
      state, stack, rest := ValueEnd(stack[top]), stack[..top], rest[1..];
    }
  }
}
