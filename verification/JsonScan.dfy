/** The scan that refuses repeated property names in migration artifacts. */
module JsonScan {
  import opened Wrappers

  /** What a JSON decoder delivers; names and texts are already unescaped. */
  datatype Token = OpenObject | CloseObject | OpenArray | CloseArray | Text(text: string) | Scalar

  datatype Step = Property(name: string) | Element(index: nat)

  datatype ScanError =
    | UnexpectedEnd
    | Duplicate(name: string, path: seq<Step>)
    | NameIsNotText(path: seq<Step>)
    | MalformedObject(path: seq<Step>)
    | MalformedArray(path: seq<Step>)
    | UnexpectedDelimiter(path: seq<Step>)
    | NotAnObject
    | TrailingValue

  /** A JSON value, as in RFC 8259. */
  datatype Json = JsonScalar | JsonText(text: string) | JsonArray(items: Items) | JsonObject(members: Members)

  datatype Items = NoItems | Item(value: Json, rest: Items)

  datatype Members = NoMembers | Member(name: string, value: Json, rest: Members)

  // ----- the scan -----

  /** Scanning one value off the front of a stream; the result is what follows it. */
  function ScanValue(tokens: seq<Token>, path: seq<Step>, root: bool): (r: Result<seq<Token>, ScanError>)
    ensures r.Ok? ==> |r.value| < |tokens|
    decreases |tokens|, 0
  {
    if tokens == [] then Err(UnexpectedEnd)
    else
      match tokens[0]
      case OpenObject => ScanMembers(tokens[1..], path, {})
      case OpenArray =>
        var r := ScanItems(tokens[1..], path, 0);
        if r.Ok? && root then Err(NotAnObject) else r
      case Text(_) => Ok(tokens[1..])
      case Scalar => Ok(tokens[1..])
      case _ => Err(if root then NotAnObject else UnexpectedDelimiter(path))
  }

  function ScanMembers(tokens: seq<Token>, path: seq<Step>, seen: set<string>): (r: Result<seq<Token>, ScanError>)
    ensures r.Ok? ==> |r.value| < |tokens|
    decreases |tokens|, 1
  {
    if tokens == [] then Err(UnexpectedEnd)
    else if !More(tokens) then
      if tokens[0] == CloseObject then Ok(tokens[1..]) else Err(MalformedObject(path))
    else if !tokens[0].Text? then Err(NameIsNotText(path))
    else if tokens[0].text in seen then Err(Duplicate(tokens[0].text, path))
    else
      var value := ScanValue(tokens[1..], path + [Property(tokens[0].text)], false);
      if value.Err? then value else ScanMembers(value.value, path, seen + {tokens[0].text})
  }

  function ScanItems(tokens: seq<Token>, path: seq<Step>, index: nat): (r: Result<seq<Token>, ScanError>)
    ensures r.Ok? ==> |r.value| < |tokens|
    decreases |tokens|, 1
  {
    if tokens == [] then Err(UnexpectedEnd)
    else if !More(tokens) then
      if tokens[0] == CloseArray then Ok(tokens[1..]) else Err(MalformedArray(path))
    else
      var value := ScanValue(tokens, path + [Element(index)], false);
      if value.Err? then value else ScanItems(value.value, path, index + 1)
  }

  /** Whether the enclosing array or object has another element. */
  predicate More(tokens: seq<Token>) {
    tokens != [] && tokens[0] != CloseObject && tokens[0] != CloseArray
  }

  function Scan(tokens: seq<Token>): Option<ScanError> {
    var r := ScanValue(tokens, [], true);
    if r.Err? then Some(r.error) else if r.value != [] then Some(TrailingValue) else None
  }

  // ----- what it should find -----

  function Print(v: Json): seq<Token> {
    match v
    case JsonScalar => [Scalar]
    case JsonText(text) => [Text(text)]
    case JsonArray(items) => [OpenArray] + PrintItems(items)
    case JsonObject(members) => [OpenObject] + PrintMembers(members)
  }

  function PrintItems(items: Items): seq<Token> {
    match items
    case NoItems => [CloseArray]
    case Item(value, rest) => Print(value) + PrintItems(rest)
  }

  function PrintMembers(members: Members): seq<Token> {
    match members
    case NoMembers => [CloseObject]
    case Member(name, value, rest) => [Text(name)] + Print(value) + PrintMembers(rest)
  }

  function Names(members: Members): seq<string> {
    match members
    case NoMembers => []
    case Member(name, _, rest) => [name] + Names(rest)
  }

  /** No object, at any depth, repeats a name. */
  predicate Unique(v: Json) {
    match v
    case JsonArray(items) => UniqueItems(items)
    case JsonObject(members) =>
      && (forall i, j | 0 <= i < j < |Names(members)| :: Names(members)[i] != Names(members)[j])
      && UniqueMembers(members)
    case _ => true
  }

  predicate UniqueItems(items: Items) {
    match items
    case NoItems => true
    case Item(value, rest) => Unique(value) && UniqueItems(rest)
  }

  predicate UniqueMembers(members: Members) {
    match members
    case NoMembers => true
    case Member(_, value, rest) => Unique(value) && UniqueMembers(rest)
  }

  predicate Fresh(members: Members, seen: set<string>) {
    && (forall i | 0 <= i < |Names(members)| :: Names(members)[i] !in seen)
    && (forall i, j | 0 <= i < j < |Names(members)| :: Names(members)[i] != Names(members)[j])
  }

  lemma FreshRest(members: Members, seen: set<string>)
    requires members.Member?
    ensures Fresh(members, seen) <==> members.name !in seen && Fresh(members.rest, seen + {members.name})
  {
    var all, rest := Names(members), Names(members.rest);
    assert all == [members.name] + rest;
    assert forall i | 0 <= i < |rest| :: all[i + 1] == rest[i];
    if members.name !in seen && Fresh(members.rest, seen + {members.name}) {
      forall i, j | 0 <= i < j < |all| ensures all[i] != all[j] {
        assert all[j] == rest[j - 1];
        assert i > 0 ==> all[i] == rest[i - 1];
      }
      forall i | 0 <= i < |all| ensures all[i] !in seen { assert i > 0 ==> all[i] == rest[i - 1]; }
    }
    if Fresh(members, seen) {
      assert all[0] == members.name;
      forall i | 0 <= i < |rest| ensures rest[i] !in seen + {members.name} { assert rest[i] == all[i + 1]; }
    }
  }

  /**
   * On the tokens of any well-formed value the scan consumes exactly that value, and it
   * succeeds exactly when no object repeats a name and the root is not an array.
   */
  lemma {:induction false} ScanOfValue(v: Json, after: seq<Token>, path: seq<Step>, root: bool)
    ensures var r := ScanValue(Print(v) + after, path, root);
            && (r.Ok? <==> Unique(v) && !(root && v.JsonArray?))
            && (r.Ok? ==> r.value == after)
    decreases v
  {
    var tokens := Print(v) + after;
    match v
    case JsonArray(items) =>
      assert tokens[1..] == PrintItems(items) + after;
      ScanOfItems(items, after, path, 0);
    case JsonObject(members) =>
      assert tokens[1..] == PrintMembers(members) + after;
      ScanOfMembers(members, after, path, {});
    case _ =>
      assert tokens[1..] == after;
  }

  lemma PrintStartsValue(v: Json, after: seq<Token>)
    ensures More(Print(v) + after)
  {
  }

  lemma {:induction false} ScanOfItems(items: Items, after: seq<Token>, path: seq<Step>, index: nat)
    ensures var r := ScanItems(PrintItems(items) + after, path, index);
            (r.Ok? <==> UniqueItems(items)) && (r.Ok? ==> r.value == after)
    decreases items
  {
    var tokens := PrintItems(items) + after;
    match items
    case NoItems => assert tokens[1..] == after;
    case Item(value, rest) =>
      assert tokens == Print(value) + (PrintItems(rest) + after);
      PrintStartsValue(value, PrintItems(rest) + after);
      ScanOfValue(value, PrintItems(rest) + after, path + [Element(index)], false);
      ScanOfItems(rest, after, path, index + 1);
  }

  lemma {:induction false} ScanOfMembers(members: Members, after: seq<Token>, path: seq<Step>, seen: set<string>)
    ensures var r := ScanMembers(PrintMembers(members) + after, path, seen);
            (r.Ok? <==> Fresh(members, seen) && UniqueMembers(members)) && (r.Ok? ==> r.value == after)
    decreases members
  {
    var tokens := PrintMembers(members) + after;
    match members
    case NoMembers => assert tokens[1..] == after;
    case Member(name, value, rest) =>
      assert tokens[1..] == Print(value) + (PrintMembers(rest) + after);
      FreshRest(members, seen);
      ScanOfValue(value, PrintMembers(rest) + after, path + [Property(name)], false);
      ScanOfMembers(rest, after, path, seen + {name});
  }

  /** Conversely, whatever the scan accepts is the tokens of such a value. */
  lemma {:induction false} ScannedIsValue(tokens: seq<Token>, path: seq<Step>, root: bool) returns (v: Json)
    requires ScanValue(tokens, path, root).Ok?
    ensures tokens == Print(v) + ScanValue(tokens, path, root).value
    decreases |tokens|, 0
  {
    hide ScanMembers, ScanItems, PrintMembers, PrintItems;
    match tokens[0]
    case OpenObject =>
      var members := ScannedIsMembers(tokens[1..], path, {});
      v := JsonObject(members);
      assert tokens == [OpenObject] + tokens[1..];
    case OpenArray =>
      var items := ScannedIsItems(tokens[1..], path, 0);
      v := JsonArray(items);
      assert tokens == [OpenArray] + tokens[1..];
    case Text(text) =>
      v := JsonText(text);
    case Scalar =>
      v := JsonScalar;
  }

  lemma {:induction false} ScannedIsMembers(tokens: seq<Token>, path: seq<Step>, seen: set<string>)
    returns (members: Members)
    requires ScanMembers(tokens, path, seen).Ok?
    ensures tokens == PrintMembers(members) + ScanMembers(tokens, path, seen).value
    decreases |tokens|, 1
  {
    hide ScanValue, ScanItems, Print;
    if !More(tokens) {
      members := NoMembers;
    } else {
      var name := tokens[0].text;
      var scanned := ScanValue(tokens[1..], path + [Property(name)], false);
      var value := ScannedIsValue(tokens[1..], path + [Property(name)], false);
      var rest := ScannedIsMembers(scanned.value, path, seen + {name});
      members := Member(name, value, rest);
      assert tokens == [Text(name)] + tokens[1..];
    }
  }

  lemma {:induction false} ScannedIsItems(tokens: seq<Token>, path: seq<Step>, index: nat) returns (items: Items)
    requires ScanItems(tokens, path, index).Ok?
    ensures tokens == PrintItems(items) + ScanItems(tokens, path, index).value
    decreases |tokens|, 1
  {
    hide ScanValue, ScanMembers, Print;
    if !More(tokens) {
      items := NoItems;
    } else {
      var scanned := ScanValue(tokens, path + [Element(index)], false);
      var value := ScannedIsValue(tokens, path + [Element(index)], false);
      var rest := ScannedIsItems(scanned.value, path, index + 1);
      items := Item(value, rest);
    }
  }

  /** A stream passes exactly when it is one value, not an array, in which no object repeats a name. */
  lemma ScanAcceptsExactly(tokens: seq<Token>)
    ensures Scan(tokens).None? <==> exists v :: tokens == Print(v) && Unique(v) && !v.JsonArray?
  {
    hide ScanValue, Print, Unique;
    if Scan(tokens).None? {
      var v := ScannedIsValue(tokens, [], true);
      assert Print(v) + [] == Print(v);
      ScanOfValue(v, [], [], true);
      assert tokens == Print(v) && Unique(v) && !v.JsonArray?;
    }
    forall v | tokens == Print(v) && Unique(v) && !v.JsonArray? ensures Scan(tokens).None? {
      assert Print(v) + [] == Print(v);
      ScanOfValue(v, [], [], true);
    }
  }

  // ----- which fault is reported -----

  /** The first fault in reading order: a repeated name at the object that repeats it, or an array as the root. */
  function FirstFault(v: Json, path: seq<Step>, root: bool): Option<ScanError> {
    match v
    case JsonArray(items) =>
      var inside := FaultInItems(items, path, 0);
      if inside.Some? then inside else if root then Some(NotAnObject) else None
    case JsonObject(members) => FaultInMembers(members, path, {})
    case JsonText(_) => None
    case JsonScalar => None
  }

  function FaultInItems(items: Items, path: seq<Step>, index: nat): Option<ScanError> {
    match items
    case NoItems => None
    case Item(value, rest) =>
      var inside := FirstFault(value, path + [Element(index)], false);
      if inside.Some? then inside else FaultInItems(rest, path, index + 1)
  }

  function FaultInMembers(members: Members, path: seq<Step>, above: set<string>): Option<ScanError> {
    match members
    case NoMembers => None
    case Member(name, value, rest) =>
      if name in above then Some(Duplicate(name, path))
      else
        var inside := FirstFault(value, path + [Property(name)], false);
        if inside.Some? then inside else FaultInMembers(rest, path, above + {name})
  }

  /** The scan of a value reports exactly its first fault, by name and place, or goes on behind it. */
  lemma {:induction false} ScanReportsFirstFault(v: Json, after: seq<Token>, path: seq<Step>, root: bool)
    ensures ScanValue(Print(v) + after, path, root)
            == match FirstFault(v, path, root) case None => Ok(after) case Some(fault) => Err(fault)
    decreases v
  {
    var tokens := Print(v) + after;
    match v
    case JsonArray(items) =>
      assert tokens[1..] == PrintItems(items) + after;
      ItemsReportFirstFault(items, after, path, 0);
    case JsonObject(members) =>
      assert tokens[1..] == PrintMembers(members) + after;
      MembersReportFirstFault(members, after, path, {});
    case _ =>
      assert tokens[1..] == after;
  }

  lemma {:induction false} ItemsReportFirstFault(items: Items, after: seq<Token>, path: seq<Step>, index: nat)
    ensures ScanItems(PrintItems(items) + after, path, index)
            == match FaultInItems(items, path, index) case None => Ok(after) case Some(fault) => Err(fault)
    decreases items
  {
    var tokens := PrintItems(items) + after;
    match items
    case NoItems => assert tokens[1..] == after;
    case Item(value, rest) =>
      assert tokens == Print(value) + (PrintItems(rest) + after);
      PrintStartsValue(value, PrintItems(rest) + after);
      ScanReportsFirstFault(value, PrintItems(rest) + after, path + [Element(index)], false);
      ItemsReportFirstFault(rest, after, path, index + 1);
  }

  lemma {:induction false} MembersReportFirstFault(members: Members, after: seq<Token>, path: seq<Step>,
                                                   above: set<string>)
    ensures ScanMembers(PrintMembers(members) + after, path, above)
            == match FaultInMembers(members, path, above) case None => Ok(after) case Some(fault) => Err(fault)
    decreases members
  {
    var tokens := PrintMembers(members) + after;
    match members
    case NoMembers => assert tokens[1..] == after;
    case Member(name, value, rest) =>
      assert tokens[1..] == Print(value) + (PrintMembers(rest) + after);
      ScanReportsFirstFault(value, PrintMembers(rest) + after, path + [Property(name)], false);
      MembersReportFirstFault(rest, after, path, above + {name});
  }

  /** What is said of a stream that is no value: that it ends, or which delimiter or name is out of place. */
  lemma MalformedStreams(tokens: seq<Token>, path: seq<Step>, above: set<string>, index: nat, root: bool)
    ensures tokens == [] ==>
              && ScanValue(tokens, path, root) == Err(UnexpectedEnd)
              && ScanMembers(tokens, path, above) == Err(UnexpectedEnd)
              && ScanItems(tokens, path, index) == Err(UnexpectedEnd)
    ensures tokens != [] && (tokens[0] == CloseObject || tokens[0] == CloseArray) ==>
              && ScanValue(tokens, path, true) == Err(NotAnObject)
              && ScanValue(tokens, path, false) == Err(UnexpectedDelimiter(path))
    ensures tokens != [] && tokens[0] == CloseArray ==> ScanMembers(tokens, path, above) == Err(MalformedObject(path))
    ensures tokens != [] && tokens[0] == CloseObject ==> ScanItems(tokens, path, index) == Err(MalformedArray(path))
    ensures tokens != [] && (tokens[0] == OpenObject || tokens[0] == OpenArray || tokens[0] == Scalar) ==>
              ScanMembers(tokens, path, above) == Err(NameIsNotText(path))
  {
  }

  /** A decoder over a token stream, advanced by the scan. */
  class Decoder {
    const tokens: seq<Token>
    var position: nat

    ghost predicate Valid()
      reads this
    {
      position <= |tokens|
    }

    ghost function Rest(): seq<Token>
      reads this
      requires Valid()
    {
      tokens[position..]
    }

    constructor (tokens: seq<Token>)
      ensures Valid() && this.tokens == tokens && Rest() == tokens
    {
      this.tokens, position := tokens, 0;
    }

    method Next() returns (token: Result<Token, ScanError>)
      requires Valid()
      modifies this
      ensures Valid()
      ensures if old(Rest()) == [] then token == Err(UnexpectedEnd) && position == old(position)
              else token == Ok(old(Rest())[0]) && Rest() == old(Rest())[1..]
    {
      if position == |tokens| { return Err(UnexpectedEnd); }
      token := Ok(tokens[position]);
      position := position + 1;
    }

    method HasMore() returns (more: bool)
      requires Valid()
      ensures more == More(Rest())
    {
      more := position < |tokens| && tokens[position] != CloseObject && tokens[position] != CloseArray;
    }

    method ScanOne(path: seq<Step>, root: bool) returns (error: Option<ScanError>)
      requires Valid()
      modifies this
      ensures Valid()
      ensures var r := ScanValue(old(Rest()), path, root);
              if r.Err? then error == Some(r.error) else error == None && Rest() == r.value
      decreases |tokens| - position
    {
      error := None;
      ghost var start := Rest();
      var token := Next();
      if token.Err? { return Some(token.error); }
      match token.value {
        case Text(_) =>
        case Scalar =>
        case OpenObject =>
          var seen: set<string> := {};
          var more := HasMore();
          while more
            invariant Valid() && error.None? && more == More(Rest()) && position > old(position)
            invariant ScanMembers(Rest(), path, seen) == ScanMembers(start[1..], path, {})
            decreases |tokens| - position
          {
            var name := Next();
            if name.Err? { return Some(UnexpectedEnd); }
            if !name.value.Text? { return Some(NameIsNotText(path)); }
            if name.value.text in seen { return Some(Duplicate(name.value.text, path)); }
            error := ScanOne(path + [Property(name.value.text)], false);
            if error.Some? { return; }
            seen := seen + {name.value.text};
            more := HasMore();
          }
          var closing := Next();
          if closing.Err? { return Some(closing.error); }
          if closing.value != CloseObject { return Some(MalformedObject(path)); }
          assert ScanMembers(start[1..], path, {}) == Ok(Rest());
        case OpenArray =>
          var index := 0;
          var more := HasMore();
          while more
            invariant Valid() && error.None? && more == More(Rest()) && position > old(position)
            invariant ScanItems(Rest(), path, index) == ScanItems(start[1..], path, 0)
            decreases |tokens| - position
          {
            error := ScanOne(path + [Element(index)], false);
            if error.Some? { return; }
            index := index + 1;
            more := HasMore();
          }
          var closing := Next();
          if closing.Err? { return Some(closing.error); }
          if closing.value != CloseArray { return Some(MalformedArray(path)); }
          assert ScanItems(start[1..], path, 0) == Ok(Rest());
          if root { return Some(NotAnObject); }
        case _ =>
          return Some(if root then NotAnObject else UnexpectedDelimiter(path));
      }
    }
  }

  method RejectDuplicateKeys(tokens: seq<Token>) returns (error: Option<ScanError>)
    ensures error == Scan(tokens)
    ensures error.None? <==> exists v :: tokens == Print(v) && Unique(v) && !v.JsonArray?
  {
    hide ScanValue, Print, Unique;
    ScanAcceptsExactly(tokens);
    var decoder := new Decoder(tokens);
    error := decoder.ScanOne([], true);
    if error.Some? { return; }
    if decoder.position < |tokens| { return Some(TrailingValue); }
  }
}
