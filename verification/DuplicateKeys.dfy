/** `hasDuplicateKeys`: one walk over the tokens that accepts exactly the JSON texts
  * without a repeated name. */
module DuplicateKeys {
  import opened Wrappers
  import opened Json
  import opened JsonDecoder

  // ---------------------------------------------------------------- parsed and free of repetitions

  /** What follows the value, if there is one and it repeats no name. */
  function CleanValue(p: Parsed<Value>): Option<seq<Lexeme>> {
    if p.Some? && NoRepeatedName(p.value.0) then Some(p.value.1) else None
  }

  function CleanElements(p: Parsed<Elements>): Option<seq<Lexeme>> {
    if p.Some? && NoneInElements(p.value.0) then Some(p.value.1) else None
  }

  /** None of the names is repeated, nor was seen before. */
  predicate FreshNames(names: seq<string>, seen: set<string>) {
    Distinct(names) && forall i | 0 <= i < |names| :: names[i] !in seen
  }

  function CleanMembers(p: Parsed<Members>, seen: set<string>): Option<seq<Lexeme>> {
    if p.Some? && FreshNames(Names(p.value.0), seen) && NoneInMembers(p.value.0) then Some(p.value.1) else None
  }

  lemma ElementStep(s: seq<Lexeme>)
    ensures CleanElements(ParseElement(s)) ==
      match CleanValue(ParseValue(s))
      case None => None
      case Some(rest) => CleanElements(ParseTail(rest))
  {
  }

  lemma FreshNamesCons(name: string, names: seq<string>, seen: set<string>)
    ensures FreshNames([name] + names, seen) <==> name !in seen && FreshNames(names, seen + {name})
  {
    var all := [name] + names;
    if FreshNames(all, seen) {
      assert all[0] == name;
      assert forall i | 0 <= i < |names| :: all[i + 1] == names[i];
    }
    if name !in seen && FreshNames(names, seen + {name}) {
      assert forall i | 0 < i < |all| :: all[i] == names[i - 1];
    }
  }

  lemma MemberStep(s: seq<Lexeme>, seen: set<string>)
    ensures CleanMembers(ParseMember(s), seen) ==
      if |s| < 2 || !s[0].Str? || s[1] != Colon || s[0].text in seen then None
      else
        match CleanValue(ParseValue(s[2..]))
        case None => None
        case Some(rest) => CleanMembers(ParseRest(rest), seen + {s[0].text})
  {
    if ParseMember(s).Some? {
      var ms := ParseMember(s).value.0;
      FreshNamesCons(ms.name, Names(ms.rest), seen);
    }
  }

  // ---------------------------------------------------------------- the walk

  /** The tokens at which a value may start, past a separator that has to be there. */
  function ValueStart(c: Cursor): Option<Cursor> {
    match SkipSeparator(c)
    case None => None
    case Some(next) => if ValueAllowed(next.state) then Some(next) else None
  }

  /** The cursor behind a clean value. */
  function AfterValue(c: Cursor): Option<Cursor> {
    match ValueStart(c)
    case None => None
    case Some(start) => Behind(start, CleanValue(ParseValue(start.rest)))
  }

  /** The cursor behind a value that starts at `start`, given what follows it. */
  function Behind(start: Cursor, clean: Option<seq<Lexeme>>): Option<Cursor> {
    if clean.Some? then Some(Cursor(ValueEnd(start.state), start.stack, clean.value)) else None
  }

  predicate BeforeValue(state: TokenState) {
    state.TopValue? || state.ArrayStart? || state.ArrayComma? || state.ObjectColon?
  }

  /** The cursor behind the closing bracket, given what follows it. */
  function Closed(c: Cursor, clean: Option<seq<Lexeme>>): Option<Cursor>
    requires c.stack != []
  {
    var top := |c.stack| - 1;
    if clean.Some? then Some(Cursor(ValueEnd(c.stack[top]), c.stack[..top], clean.value)) else None
  }

  lemma InsideArray(c: Cursor)
    requires ValueAllowed(c.state) && c.rest != [] && c.rest[0] == LBracket
    ensures
      var inside := Open(c, ArrayStart).1;
      Closed(inside, CleanElements(ParseElements(inside.rest))) == Behind(c, CleanValue(ParseValue(c.rest)))
  {
    assert (c.stack + [c.state])[..|c.stack|] == c.stack;
  }

  lemma InsideObject(c: Cursor)
    requires ValueAllowed(c.state) && c.rest != [] && c.rest[0] == LBrace
    ensures
      var inside := Open(c, ObjectStart).1;
      Closed(inside, CleanMembers(ParseMembers(inside.rest), {})) == Behind(c, CleanValue(ParseValue(c.rest)))
  {
    assert (c.stack + [c.state])[..|c.stack|] == c.stack;
  }

  /** What the first token says about the value. */
  lemma FirstToken(c: Cursor)
    requires BeforeValue(c.state)
    ensures AfterValue(c) ==
      match Next(c)
      case Err(_) => None
      case Ok((Delimiter(LBrace), inside)) => Closed(inside, CleanMembers(ParseMembers(inside.rest), {}))
      case Ok((Delimiter(LBracket), inside)) => Closed(inside, CleanElements(ParseElements(inside.rest)))
      case Ok((Delimiter(_), _)) => None
      case Ok((_, after)) => Some(after)
  {
    if ValueStart(c).Some? && ValueStart(c).value.rest != [] {
      var start := ValueStart(c).value;
      if start.rest[0] == LBracket {
        InsideArray(start);
      } else if start.rest[0] == LBrace {
        InsideObject(start);
      }
    }
  }

  method Value(d: Decoder) returns (duplicate: bool)
    requires BeforeValue(d.state)
    modifies d
    ensures
      var after := AfterValue(old(d.At()));
      && duplicate == after.None?
      && (after.Some? ==> d.At() == after.value)
    decreases |d.rest|, 0
  {
    FirstToken(d.At());
    var token := d.Token();
    if token.Err? {
      return true;
    }
    if !token.value.Delimiter? {
      return false;
    }
    match token.value.bracket {
      case LBrace => duplicate := ObjectBody(d);
      case LBracket => duplicate := ArrayBody(d);
      case _ => return true;
    }
  }

  lemma AfterElementStep(c: Cursor)
    requires (c.state == ArrayStart || c.state == ArrayComma) && More(c)
    ensures
      CleanElements(if c.state == ArrayStart then ParseElements(c.rest) else ParseTail(c.rest)) ==
      match AfterValue(c)
      case None => None
      case Some(after) => CleanElements(ParseTail(after.rest))
    ensures AfterValue(c).Some? ==>
      AfterValue(c).value.state == ArrayComma && AfterValue(c).value.stack == c.stack
      && |AfterValue(c).value.rest| < |c.rest|
  {
    ElementStep(c.rest);
    ElementStep(c.rest[1..]);
  }

  lemma ArrayEnd(c: Cursor)
    requires (c.state == ArrayStart || c.state == ArrayComma) && !More(c)
    ensures CleanElements(if c.state == ArrayStart then ParseElements(c.rest) else ParseTail(c.rest)) ==
      if c.rest != [] && c.rest[0] == RBracket then Some(c.rest[1..]) else None
  {
    ElementStep(c.rest);
  }

  /** Behind an opening bracket: the elements and the closing bracket. */
  method ArrayBody(d: Decoder) returns (duplicate: bool)
    requires d.state == ArrayStart && d.stack != []
    modifies d
    ensures
      var after := Closed(old(d.At()), CleanElements(ParseElements(old(d.rest))));
      && duplicate == after.None?
      && (after.Some? ==> d.At() == after.value)
    decreases |d.rest|, 1
  {
    while d.HasMore()
      invariant d.stack == old(d.stack) && |d.rest| <= |old(d.rest)|
      invariant (d.state == ArrayStart && d.rest == old(d.rest)) || d.state == ArrayComma
      invariant CleanElements(ParseElements(old(d.rest))) ==
        CleanElements(if d.state == ArrayStart then ParseElements(d.rest) else ParseTail(d.rest))
      decreases |d.rest|
    {
      AfterElementStep(d.At());
      var repeated := Value(d);
      if repeated {
        return true;
      }
    }
    ArrayEnd(d.At());
    var token := d.Token();
    return token.Err?;
  }

  /** The name of the next member, and the cursor behind its value. */
  function AfterMember(c: Cursor, seen: set<string>): Option<(string, Cursor)> {
    match SkipSeparator(c)
    case None => None
    case Some(next) =>
      var s := next.rest;
      if !(next.state.ObjectStart? || next.state.ObjectKey?) then None
      else if |s| < 2 || !s[0].Str? || s[1] != Colon || s[0].text in seen then None
      else
        match CleanValue(ParseValue(s[2..]))
        case None => None
        case Some(rest) => Some((s[0].text, Cursor(ObjectComma, c.stack, rest)))
  }

  method OneMember(d: Decoder, seen: set<string>) returns (duplicate: bool, name: string)
    requires d.state == ObjectStart || d.state == ObjectComma
    modifies d
    ensures
      var after := AfterMember(old(d.At()), seen);
      && duplicate == after.None?
      && (after.Some? ==> name == after.value.0 && d.At() == after.value.1)
    decreases |d.rest|, 1
  {
    var key := d.Token();
    if key.Err? || !key.value.Text? {
      return true, "";
    }
    name := key.value.text;
    if name in seen {
      return true, name;
    }
    duplicate := Value(d);
  }

  lemma AfterMemberStep(c: Cursor, seen: set<string>)
    requires c.state == ObjectStart || c.state == ObjectComma
    requires More(c)
    ensures
      CleanMembers(if c.state == ObjectStart then ParseMembers(c.rest) else ParseRest(c.rest), seen) ==
      match AfterMember(c, seen)
      case None => None
      case Some((name, after)) => CleanMembers(ParseRest(after.rest), seen + {name})
    ensures AfterMember(c, seen).Some? ==>
      AfterMember(c, seen).value.1.state == ObjectComma && AfterMember(c, seen).value.1.stack == c.stack
      && |AfterMember(c, seen).value.1.rest| < |c.rest|
  {
    MemberStep(c.rest, seen);
    MemberStep(c.rest[1..], seen);
  }

  /** Behind an opening brace: the members and the closing brace. */
  method ObjectBody(d: Decoder) returns (duplicate: bool)
    requires d.state == ObjectStart && d.stack != []
    modifies d
    ensures
      var after := Closed(old(d.At()), CleanMembers(ParseMembers(old(d.rest)), {}));
      && duplicate == after.None?
      && (after.Some? ==> d.At() == after.value)
    decreases |d.rest|, 2
  {
    var seen: set<string> := {};
    while d.HasMore()
      invariant d.stack == old(d.stack) && |d.rest| <= |old(d.rest)|
      invariant (d.state == ObjectStart && d.rest == old(d.rest)) || d.state == ObjectComma
      invariant CleanMembers(ParseMembers(old(d.rest)), {}) ==
        CleanMembers(if d.state == ObjectStart then ParseMembers(d.rest) else ParseRest(d.rest), seen)
      decreases |d.rest|
    {
      AfterMemberStep(d.At(), seen);
      var repeated, name := OneMember(d, seen);
      if repeated {
        return true;
      }
      seen := seen + {name};
    }
    var token := d.Token();
    return token.Err?;
  }

  // ---------------------------------------------------------------- the whole text

  /** False exactly if the tokens are one complete JSON value with nothing after it, in
    * which no object at any depth repeats a name. */
  method HasDuplicateKeys(data: seq<Lexeme>) returns (duplicate: bool)
    ensures !duplicate <==> exists v: Json.Value :: Render(v) == data && NoRepeatedName(v)
  {
    var decoder := new Decoder(data);
    var repeated := Value(decoder);
    if repeated {
      NotClean(data);
      return true;
    }
    var token := decoder.Token();
    duplicate := !(token.Err? && token.error == EndOfInput);
    CleanEnd(data);
  }

  lemma NotClean(data: seq<Lexeme>)
    requires AfterValue(Cursor(TopValue, [], data)).None?
    ensures !exists v: Json.Value :: Render(v) == data && NoRepeatedName(v)
  {
    if v: Json.Value :| Render(v) == data && NoRepeatedName(v) {
      OneValue(data, v);
    }
  }

  lemma CleanEnd(data: seq<Lexeme>)
    requires AfterValue(Cursor(TopValue, [], data)).Some?
    ensures Next(AfterValue(Cursor(TopValue, [], data)).value) == Err(EndOfInput) <==>
      exists v: Json.Value :: Render(v) == data && NoRepeatedName(v)
  {
    var (v, rest) := ParseValue(data).value;
    if rest == [] {
      OneValue(data, v);
    }
    if w: Json.Value :| Render(w) == data && NoRepeatedName(w) {
      OneValue(data, w);
    }
  }
}
