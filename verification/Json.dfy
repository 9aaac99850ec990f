/** JSON texts as token sequences: the grammar, by rendering and by parsing. */
module Json {
  import opened Wrappers

  /** The tokens of section 2 of RFC 8259. A string is given by the text it decodes to.
    * `Scalar` is a number or a literal name that the library decodes; `Bad` is anything
    * it does not decode. */
  datatype Lexeme =
    | LBrace | RBrace | LBracket | RBracket | Colon | Comma
    | Str(text: string) | Scalar | Bad

  datatype Value =
    | ScalarValue
    | StringValue(text: string)
    | ArrayValue(elements: Elements)
    | ObjectValue(members: Members)

  datatype Elements = NoElements | Element(head: Value, tail: Elements)

  datatype Members = NoMembers | Member(name: string, value: Value, rest: Members)

  // ---------------------------------------------------------------- the grammar

  function Render(v: Value): seq<Lexeme> {
    match v
    case ScalarValue => [Scalar]
    case StringValue(text) => [Str(text)]
    case ArrayValue(NoElements) => [LBracket, RBracket]
    case ArrayValue(Element(head, tail)) => [LBracket] + Render(head) + RenderTail(tail)
    case ObjectValue(NoMembers) => [LBrace, RBrace]
    case ObjectValue(Member(name, value, rest)) =>
      [LBrace, Str(name), Colon] + Render(value) + RenderRest(rest)
  }

  /** What follows an element, up to and with the closing bracket. */
  function RenderTail(es: Elements): seq<Lexeme> {
    match es
    case NoElements => [RBracket]
    case Element(head, tail) => [Comma] + Render(head) + RenderTail(tail)
  }

  /** What follows a member, up to and with the closing brace. */
  function RenderRest(ms: Members): seq<Lexeme> {
    match ms
    case NoMembers => [RBrace]
    case Member(name, value, rest) => [Comma, Str(name), Colon] + Render(value) + RenderRest(rest)
  }

  // ---------------------------------------------------------------- repeated names

  function Names(ms: Members): seq<string> {
    match ms
    case NoMembers => []
    case Member(name, _, rest) => [name] + Names(rest)
  }

  predicate Distinct(names: seq<string>) {
    forall i, j | 0 <= i < j < |names| :: names[i] != names[j]
  }

  /** No object in the value, at any depth, has two members of the same name. */
  predicate NoRepeatedName(v: Value) {
    match v
    case ScalarValue => true
    case StringValue(_) => true
    case ArrayValue(elements) => NoneInElements(elements)
    case ObjectValue(members) => Distinct(Names(members)) && NoneInMembers(members)
  }

  predicate NoneInElements(es: Elements) {
    es.Element? ==> NoRepeatedName(es.head) && NoneInElements(es.tail)
  }

  predicate NoneInMembers(ms: Members) {
    ms.Member? ==> NoRepeatedName(ms.value) && NoneInMembers(ms.rest)
  }

  // ---------------------------------------------------------------- parsing

  type Parsed<T> = Option<(T, seq<Lexeme>)>

  /** The value at the front of the tokens, and what follows it. */
  function ParseValue(s: seq<Lexeme>): (r: Parsed<Value>)
    ensures r.Some? ==> |r.value.1| < |s|
    decreases |s|, 0
  {
    if s == [] then None
    else match s[0]
      case Scalar => Some((ScalarValue, s[1..]))
      case Str(text) => Some((StringValue(text), s[1..]))
      case LBracket =>
        (match ParseElements(s[1..])
         case Some((elements, rest)) => Some((ArrayValue(elements), rest))
         case None => None)
      case LBrace =>
        (match ParseMembers(s[1..])
         case Some((members, rest)) => Some((ObjectValue(members), rest))
         case None => None)
      case _ => None
  }

  function ParseElements(s: seq<Lexeme>): (r: Parsed<Elements>)
    ensures r.Some? ==> |r.value.1| < |s|
    decreases |s|, 2
  {
    if s != [] && s[0] == RBracket then Some((NoElements, s[1..]))
    else ParseElement(s)
  }

  /** An element and what follows it, up to and with the closing bracket. */
  function ParseElement(s: seq<Lexeme>): (r: Parsed<Elements>)
    ensures r.Some? ==> |r.value.1| < |s|
    decreases |s|, 1
  {
    match ParseValue(s)
    case None => None
    case Some((head, rest)) =>
      match ParseTail(rest)
      case None => None
      case Some((tail, rest)) => Some((Element(head, tail), rest))
  }

  function ParseTail(s: seq<Lexeme>): (r: Parsed<Elements>)
    ensures r.Some? ==> |r.value.1| < |s|
    decreases |s|, 1
  {
    if s == [] then None
    else if s[0] == RBracket then Some((NoElements, s[1..]))
    else if s[0] == Comma then ParseElement(s[1..])
    else None
  }

  function ParseMembers(s: seq<Lexeme>): (r: Parsed<Members>)
    ensures r.Some? ==> |r.value.1| < |s|
    decreases |s|, 1
  {
    if s != [] && s[0] == RBrace then Some((NoMembers, s[1..]))
    else ParseMember(s)
  }

  function ParseMember(s: seq<Lexeme>): (r: Parsed<Members>)
    ensures r.Some? ==> |r.value.1| < |s|
    decreases |s|, 0
  {
    if |s| < 2 || !s[0].Str? || s[1] != Colon then None
    else
      match ParseValue(s[2..])
      case None => None
      case Some((value, rest)) =>
        match ParseRest(rest)
        case None => None
        case Some((more, rest)) => Some((Member(s[0].text, value, more), rest))
  }

  function ParseRest(s: seq<Lexeme>): (r: Parsed<Members>)
    ensures r.Some? ==> |r.value.1| < |s|
    decreases |s|, 1
  {
    if s == [] then None
    else if s[0] == RBrace then Some((NoMembers, s[1..]))
    else if s[0] == Comma then ParseMember(s[1..])
    else None
  }

  // ---------------------------------------------------------------- parsing inverts rendering

  lemma RenderStarts(v: Value)
    ensures Render(v) != [] && Render(v)[0] != RBracket && Render(v)[0] != RBrace
  {
  }

  lemma {:induction false} ParseRendered(v: Value, rest: seq<Lexeme>)
    ensures ParseValue(Render(v) + rest) == Some((v, rest))
    decreases v, 3
  {
    match v
    case ScalarValue =>
    case StringValue(_) =>
    case ArrayValue(elements) => ParseRenderedArray(elements, rest);
    case ObjectValue(members) => ParseRenderedObject(members, rest);
  }

  lemma {:induction false} ParseRenderedArray(es: Elements, rest: seq<Lexeme>)
    ensures ParseValue(Render(ArrayValue(es)) + rest) == Some((ArrayValue(es), rest))
    decreases es, 2
  {
    var s := Render(ArrayValue(es)) + rest;
    if es.NoElements? {
      assert s[1..] == [RBracket] + rest;
    } else {
      assert s[1..] == Render(es.head) + RenderTail(es.tail) + rest;
      RenderStarts(es.head);
      ParseRenderedElement(es, rest);
    }
  }

  lemma {:induction false} ParseRenderedObject(ms: Members, rest: seq<Lexeme>)
    ensures ParseValue(Render(ObjectValue(ms)) + rest) == Some((ObjectValue(ms), rest))
    decreases ms, 2
  {
    var s := Render(ObjectValue(ms)) + rest;
    if ms.NoMembers? {
      assert s[1..] == [RBrace] + rest;
    } else {
      assert s[1..] == [Str(ms.name), Colon] + Render(ms.value) + RenderRest(ms.rest) + rest;
      ParseRenderedMember(ms, rest);
    }
  }

  lemma {:induction false} ParseRenderedElement(es: Elements, rest: seq<Lexeme>)
    requires es.Element?
    ensures ParseElement(Render(es.head) + RenderTail(es.tail) + rest) == Some((es, rest))
    decreases es, 1
  {
    var after := RenderTail(es.tail) + rest;
    assert Render(es.head) + RenderTail(es.tail) + rest == Render(es.head) + after;
    ParseRendered(es.head, after);
    ParseRenderedTail(es.tail, rest);
  }

  lemma {:induction false} ParseRenderedTail(es: Elements, rest: seq<Lexeme>)
    ensures ParseTail(RenderTail(es) + rest) == Some((es, rest))
    decreases es, 2
  {
    match es
    case NoElements =>
    case Element(head, tail) =>
      assert (RenderTail(es) + rest)[1..] == Render(head) + RenderTail(tail) + rest;
      ParseRenderedElement(es, rest);
  }

  lemma {:induction false} ParseRenderedMember(ms: Members, rest: seq<Lexeme>)
    requires ms.Member?
    ensures ParseMember([Str(ms.name), Colon] + Render(ms.value) + RenderRest(ms.rest) + rest) == Some((ms, rest))
    decreases ms, 1
  {
    var s := [Str(ms.name), Colon] + Render(ms.value) + RenderRest(ms.rest) + rest;
    var after := RenderRest(ms.rest) + rest;
    assert s[2..] == Render(ms.value) + after;
    ParseRendered(ms.value, after);
    ParseRenderedRest(ms.rest, rest);
  }

  lemma {:induction false} ParseRenderedRest(ms: Members, rest: seq<Lexeme>)
    ensures ParseRest(RenderRest(ms) + rest) == Some((ms, rest))
    decreases ms, 2
  {
    match ms
    case NoMembers =>
    case Member(name, value, more) =>
      assert (RenderRest(ms) + rest)[1..] == [Str(name), Colon] + Render(value) + RenderRest(more) + rest;
      ParseRenderedMember(ms, rest);
  }

  lemma {:induction false} ParsedRenders(s: seq<Lexeme>)
    requires ParseValue(s).Some?
    ensures Render(ParseValue(s).value.0) + ParseValue(s).value.1 == s
    decreases |s|, 0
  {
    assert s == [s[0]] + s[1..];
    match s[0]
    case LBracket =>
      if s[1] == RBracket {
      } else {
        ParsedElementRenders(s[1..]);
      }
    case LBrace =>
      if s[1] == RBrace {
      } else {
        ParsedMemberRenders(s[1..]);
      }
    case _ =>
  }

  lemma {:induction false} ParsedElementRenders(s: seq<Lexeme>)
    requires ParseElement(s).Some?
    ensures
      var (es, rest) := ParseElement(s).value;
      es.Element? && Render(es.head) + RenderTail(es.tail) + rest == s
    decreases |s|, 1
  {
    ParsedRenders(s);
    ParsedTailRenders(ParseValue(s).value.1);
    var (head, after) := ParseValue(s).value;
    var (tail, rest) := ParseTail(after).value;
    assert Render(head) + RenderTail(tail) + rest == Render(head) + (RenderTail(tail) + rest);
  }

  lemma {:induction false} ParsedTailRenders(s: seq<Lexeme>)
    requires ParseTail(s).Some?
    ensures RenderTail(ParseTail(s).value.0) + ParseTail(s).value.1 == s
    decreases |s|, 0
  {
    assert s == [s[0]] + s[1..];
    if s[0] == Comma {
      ParsedElementRenders(s[1..]);
      var (es, rest) := ParseElement(s[1..]).value;
      assert RenderTail(es) + rest == [Comma] + (Render(es.head) + RenderTail(es.tail) + rest);
    }
  }

  lemma Regroup(a: seq<Lexeme>, b: seq<Lexeme>, c: seq<Lexeme>, d: seq<Lexeme>)
    ensures a + b + c + d == a + (b + (c + d))
  {
  }

  lemma {:induction false} ParsedMemberRenders(s: seq<Lexeme>)
    requires ParseMember(s).Some?
    ensures
      var (ms, rest) := ParseMember(s).value;
      ms.Member? && [Str(ms.name), Colon] + Render(ms.value) + RenderRest(ms.rest) + rest == s
    decreases |s|, 1
  {
    ParsedRenders(s[2..]);
    var (value, after) := ParseValue(s[2..]).value;
    ParsedRestRenders(after);
    var (more, rest) := ParseRest(after).value;
    var key := [s[0], s[1]];
    assert s == key + s[2..];
    Regroup(key, Render(value), RenderRest(more), rest);
  }

  lemma {:induction false} ParsedRestRenders(s: seq<Lexeme>)
    requires ParseRest(s).Some?
    ensures RenderRest(ParseRest(s).value.0) + ParseRest(s).value.1 == s
    decreases |s|, 0
  {
    assert s == [s[0]] + s[1..];
    if s[0] == Comma {
      ParsedMemberRenders(s[1..]);
      var (ms, rest) := ParseMember(s[1..]).value;
      assert RenderRest(ms) + rest ==
        [Comma] + ([Str(ms.name), Colon] + Render(ms.value) + RenderRest(ms.rest) + rest);
    }
  }

  /** A token sequence is one JSON value exactly if it parses without a rest; the value
    * is then unique. */
  lemma OneValue(s: seq<Lexeme>, v: Value)
    ensures Render(v) == s <==> ParseValue(s) == Some((v, []))
  {
    if Render(v) == s {
      assert Render(v) + [] == s;
      ParseRendered(v, []);
    }
    if ParseValue(s) == Some((v, [])) {
      ParsedRenders(s);
    }
  }
}
