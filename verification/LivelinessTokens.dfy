// Zenoh liveliness tokens: a printer and two parsers over '/'-separated
// fields, with the type lists packed by '&' (src/TopicUtils.cc).
module LivelinessTokens {
  import opened Options
  import opened Strings
  import opened TopicNames

  const TOKEN_PREFIX := "@gz"

  function MangleName(s: string): string {
    Replace(s, '/', '%')
  }

  function DemangleName(s: string): string {
    Replace(s, '%', '/')
  }

  // ---- Type lists ----

  predicate GoodTypes(types: seq<string>) {
    types != [] && forall i :: 0 <= i < |types| ==> types[i] != "" && Free(types[i], '&')
  }

  function MangledTypes(types: seq<string>): Option<string> {
    if GoodTypes(types) then Some(Join(types, '&')) else None
  }

  function DemangledTypes(s: string): Option<seq<string>> {
    var types := Split(s, '&');
    if forall i :: 0 <= i < |types| ==> types[i] != "" then Some(types) else None
  }

  method MangleType(input: seq<string>) returns (ok: bool, output: string)
    ensures ok <==> MangledTypes(input).Some?
    ensures ok ==> MangledTypes(input) == Some(output)
  {
    output := "";
    if input == [] {
      return false, output;
    }
    for k := 0 to |input|
      invariant forall i :: 0 <= i < k ==> input[i] != "" && Free(input[i], '&')
      invariant output == Terminated(input[..k], '&')
    {
      if input[k] == "" {
        return false, output;
      }
      if '&' in input[k] {
        return false, output;
      }
      assert input[..k + 1][..k] == input[..k];
      output := output + (input[k] + "&");
    }
    assert input[..|input|] == input;
    TerminatedIsJoin(input, '&');
    output := output[..|output| - 1];
    ok := true;
  }

  lemma EmptyFieldIsBad(s: string, before: seq<string>, rest: seq<string>)
    requires Split(s, '&') == before + rest && rest != [] && rest[0] == ""
    ensures DemangledTypes(s).None?
  {
    hide Split;
    assert Split(s, '&')[|before|] == "";
  }

  lemma FullFieldsAreGood(s: string, fields: seq<string>)
    requires Split(s, '&') == fields && forall i :: 0 <= i < |fields| ==> fields[i] != ""
    ensures DemangledTypes(s) == Some(fields)
  {
    hide Split;
  }

  method DemangleType(input: string) returns (ok: bool, output: seq<string>)
    ensures ok <==> DemangledTypes(input).Some?
    ensures ok ==> DemangledTypes(input) == Some(output)
  {
    hide Split, DemangledTypes, IndexOf;
    output := [];
    SplitStep(input, '&');
    if input == "" {
      EmptyFieldIsBad(input, [], Split(input, '&'));
      return false, output;
    }
    var token := input;
    var firstAt := IndexOf(token, '&');
    while firstAt != |token|
      invariant firstAt == IndexOf(token, '&')
      invariant output + Split(token, '&') == Split(input, '&')
      invariant forall i :: 0 <= i < |output| ==> output[i] != ""
      decreases |token|
    {
      SplitStep(token, '&');
      var typ := token[..firstAt];
      if typ == "" {
        EmptyFieldIsBad(input, output, Split(token, '&'));
        return false, output;
      }
      RegroupFields(output, typ, Split(token[firstAt + 1..], '&'));
      output := output + [typ];
      token := token[firstAt + 1..];
      firstAt := IndexOf(token, '&');
    }
    SplitStep(token, '&');
    if token == "" {
      EmptyFieldIsBad(input, output, [token]);
      return false, output;
    }
    output := output + [token];
    FullFieldsAreGood(input, output);
    ok := true;
  }

  /** Packing then unpacking a type list gives the list back. */
  lemma TypesRoundTrip(types: seq<string>)
    requires MangledTypes(types).Some?
    ensures DemangledTypes(MangledTypes(types).value) == Some(types)
  {
    SplitOfJoin(types, '&');
  }

  /** Unpacking then packing a string gives the string back. */
  lemma TypesRoundTripBack(s: string)
    requires DemangledTypes(s).Some?
    ensures MangledTypes(DemangledTypes(s).value) == Some(s)
  {
    SplitFieldsAreFree(s, '&');
    JoinOfSplit(s, '&');
  }

  // ---- Tokens ----

  datatype Token = Token(prefix: string, partition: string, topic: string,
                         pUuid: string, nUuid: string, entityType: string)

  /** CreateLivelinessTokenHelper: empty when the name does not decompose. */
  function TokenHead(name: string, pUuid: string, nUuid: string, entityType: string): string {
    match Decompose(name)
    case None => ""
    case Some((partition, topic)) => Terminated(HeadFields(partition, topic, pUuid, nUuid, entityType), '/')
  }

  function HeadFields(partition: string, topic: string, pUuid: string, nUuid: string, entityType: string): seq<string> {
    [TOKEN_PREFIX, MangleName(partition), pUuid, nUuid, nUuid, entityType, "%", "%", "%", MangleName(topic)]
  }

  function MessageToken(name: string, pUuid: string, nUuid: string, entityType: string, typeName: string): string {
    TokenHead(name, pUuid, nUuid, entityType) + typeName + "/" + "%" + "/" + "%"
  }

  function ServiceToken(name: string, pUuid: string, nUuid: string, entityType: string,
                        reqType: string, repType: string): string
  {
    match MangledTypes([reqType, repType])
    case None => ""
    case Some(types) => TokenHead(name, pUuid, nUuid, entityType) + types + "/" + "%" + "/" + "%"
  }

  /** The fields the ten-field helper of the decomposers accepts. */
  predicate GoodHead(fields: seq<string>) {
    && |fields| >= 11
    && StartsWithAt(fields[0])
    && (forall i :: 1 <= i < 10 ==> fields[i] != "")
    && IsValidPartition(DemangleName(fields[1]))
    && IsValidTopic(DemangleName(fields[9]))
  }

  predicate StartsWithAt(s: string) {
    s != "" && s[0] == '@'
  }

  function HeadOf(fields: seq<string>): Token
    requires |fields| >= 11
  {
    Token(fields[0], DemangleName(fields[1]), DemangleName(fields[9]), fields[2], fields[3], fields[5])
  }

  function DecomposedMessage(token: string): Option<(Token, string)> {
    var f := Split(token, '/');
    if GoodHead(f) && |f| == 13 && f[11] != "" then Some((HeadOf(f), f[10])) else None
  }

  function DecomposedService(token: string): Option<(Token, string, string)> {
    var f := Split(token, '/');
    if !GoodHead(f) || |f| != 13 || f[11] == "" then None
    else
      match DemangledTypes(f[10])
      case None => None
      case Some(types) => if |types| == 2 then Some((HeadOf(f), types[0], types[1])) else None
  }

  // ---- The decomposers as they edit their working copy ----

  /** One round of "find the slash, take what is before it, erase through it". */
  method NextField(token: string) returns (field: string, rest: string)
    requires '/' in token
    ensures Split(token, '/') == [field] + Split(rest, '/')
    ensures Count(rest, '/') == Count(token, '/') - 1
    ensures field == "" <==> IndexOf(token, '/') == 0
    ensures field == token[..IndexOf(token, '/')]
  {
    var firstAt := IndexOf(token, '/');
    field := token[..firstAt];
    rest := token[firstAt + 1..];
    CountIsFieldsMinusOne(token, '/');
    CountIsFieldsMinusOne(rest, '/');
  }

  lemma DropOne(f: seq<string>, n: nat, x: string, rest: seq<string>)
    requires n <= |f| && f[n..] == [x] + rest
    ensures n < |f| && f[n] == x && f[n + 1..] == rest && f[..n + 1] == f[..n] + [x]
  {
    assert f[n..][0] == x && f[n..][1..] == rest;
  }

  /** The ten rounds of the helper; it stops at an empty field after the
      first. */
  method TakeFields(token: string) returns (ok: bool, taken: seq<string>, rest: string)
    requires Count(token, '/') >= 10
    ensures var f := Split(token, '/');
            && |f| >= 11
            && (ok ==> taken == f[..10] && Split(rest, '/') == f[10..])
            && (ok <==> forall i :: 1 <= i < 10 ==> f[i] != "")
  {
    ghost var f := Split(token, '/');
    CountIsFieldsMinusOne(token, '/');
    hide Split, Count;
    taken, rest := [], token;
    while |taken| < 10
      invariant |taken| <= 10 && taken == f[..|taken|]
      invariant Split(rest, '/') == f[|taken|..]
      invariant Count(rest, '/') == Count(token, '/') - |taken|
      invariant forall i :: 1 <= i < |taken| ==> f[i] != ""
      decreases 10 - |taken|
    {
      CountPositive(rest, '/');
      var field, after := NextField(rest);
      DropOne(f, |taken|, field, Split(after, '/'));
      if |taken| > 0 && field == "" {
        return false, taken, rest;
      }
      taken := taken + [field];
      rest := after;
    }
    ok := true;
  }

  /** The first field of a token begins with '@' exactly when the token does. */
  lemma FirstFieldAt(token: string)
    requires '/' in token
    ensures StartsWithAt(Split(token, '/')[0]) <==> StartsWithAt(token)
  {
    SplitStep(token, '/');
  }

  method DecomposeTokenHelper(token: string) returns (ok: bool, head: Token, remaining: string)
    ensures var f := Split(token, '/');
            && (ok <==> GoodHead(f))
            && (ok ==> head == HeadOf(f) && Split(remaining, '/') == f[10..])
  {
    head := Token("", "", "", "", "", "");
    remaining := token;
    CountIsFieldsMinusOne(token, '/');
    CountPositive(token, '/');
    hide Split, Count;
    if Count(token, '/') < 10 {
      return false, head, remaining;
    }
    FirstFieldAt(token);
    if IndexOf(token, '@') != 0 {
      return false, head, remaining;
    }
    var full, taken, work := TakeFields(token);
    if !full {
      return false, head, remaining;
    }
    var partition := DemangleName(taken[1]);
    var topic := DemangleName(taken[9]);
    if !IsValidPartition(partition) || !IsValidTopic(topic) {
      return false, head, remaining;
    }
    head := Token(taken[0], partition, topic, taken[2], taken[3], taken[5]);
    remaining := work;
    ok := true;
  }

  lemma {:induction false} CountPositive(s: string, c: char)
    ensures Count(s, c) > 0 <==> c in s
  {
    if s != "" {
      assert s == [s[0]] + s[1..];
      CountPositive(s[1..], c);
    }
  }

  method DecomposeMessageToken(token: string) returns (ok: bool, head: Token, msgType: string)
    ensures ok <==> DecomposedMessage(token).Some?
    ensures ok ==> DecomposedMessage(token) == Some((head, msgType))
  {
    var work: string;
    msgType := "";
    ok, head, work := DecomposeTokenHelper(token);
    if !ok {
      return;
    }
    CountIsFieldsMinusOne(work, '/');
    if Count(work, '/') != 2 {
      return false, head, msgType;
    }
    var possibleType, hash: string;
    CountPositive(work, '/');
    possibleType, work := NextField(work);
    CountPositive(work, '/');
    hash, work := NextField(work);
    assert Split(token, '/')[10..][1] == hash && Split(token, '/')[10..][0] == possibleType;
    if hash == "" {
      return false, head, msgType;
    }
    msgType := possibleType;
  }

  method DecomposeServiceToken(token: string)
    returns (ok: bool, head: Token, reqType: string, repType: string)
    ensures ok <==> DecomposedService(token).Some?
    ensures ok ==> DecomposedService(token) == Some((head, reqType, repType))
  {
    var work: string;
    reqType, repType := "", "";
    ok, head, work := DecomposeTokenHelper(token);
    if !ok {
      return;
    }
    CountIsFieldsMinusOne(work, '/');
    if Count(work, '/') != 2 {
      return false, head, reqType, repType;
    }
    var mangledTypes, hash: string;
    CountPositive(work, '/');
    mangledTypes, work := NextField(work);
    var good, types := DemangleType(mangledTypes);
    CountPositive(work, '/');
    hash, work := NextField(work);
    assert Split(token, '/')[10..][1] == hash && Split(token, '/')[10..][0] == mangledTypes;
    if !good || |types| != 2 || hash == "" {
      return false, head, reqType, repType;
    }
    reqType, repType := types[0], types[1];
  }

  // ---- Round trips ----

  predicate Plain(s: string) {
    s != "" && Free(s, '/')
  }

  /** The condition on a name and ids under which a token carries them. */
  predicate Carried(name: string, pUuid: string, nUuid: string, entityType: string) {
    match Decompose(name)
    case None => false
    case Some((partition, topic)) =>
      && partition != "" && Free(partition, '%') && Free(topic, '%')
      && Plain(pUuid) && Plain(nUuid) && Plain(entityType)
  }

  /** A token whose ids and types are free of slashes splits into exactly the
      thirteen fields it was printed from. */
  lemma TokenSplits(partition: string, topic: string, pUuid: string, nUuid: string, entityType: string, types: string)
    requires Free(pUuid, '/') && Free(nUuid, '/') && Free(entityType, '/') && Free(types, '/')
    ensures var head := HeadFields(partition, topic, pUuid, nUuid, entityType);
            Split(Terminated(head, '/') + types + "/" + "%" + "/" + "%", '/') == head + [types, "%", "%"]
  {
    var head := HeadFields(partition, topic, pUuid, nUuid, entityType);
    ReplaceRemoves(partition, '/', '%');
    ReplaceRemoves(topic, '/', '%');
    assert AllFree(head, '/');
    TailSplits(types);
    hide HeadFields, Terminated, Split;
    TailRegroups(Terminated(head, '/'), types);
    SplitTerminated(head, types + ['/'] + ("%" + ['/'] + "%"), '/');
  }

  lemma TailRegroups(s: string, types: string)
    ensures s + types + "/" + "%" + "/" + "%" == s + (types + ['/'] + ("%" + ['/'] + "%"))
  {
  }

  lemma TailSplits(types: string)
    requires Free(types, '/')
    ensures Split(types + ['/'] + ("%" + ['/'] + "%"), '/') == [types, "%", "%"]
  {
    SplitCons(types, "%" + ['/'] + "%", '/');
    SplitCons("%", "%", '/');
  }

  /** Reading back the thirteen fields of a token. */
  lemma FieldsRead(partition: string, topic: string, pUuid: string, nUuid: string, entityType: string, types: string)
    requires partition != "" && Free(partition, '%') && Free(topic, '%')
    requires Plain(pUuid) && Plain(nUuid) && Plain(entityType)
    requires IsValidPartition(partition) && IsValidTopic(topic)
    ensures var f := HeadFields(partition, topic, pUuid, nUuid, entityType) + [types, "%", "%"];
            GoodHead(f) && HeadOf(f) == Token(TOKEN_PREFIX, partition, topic, pUuid, nUuid, entityType)
  {
    ReplaceThereAndBack(partition, '/', '%');
    ReplaceThereAndBack(topic, '/', '%');
  }

  /** Decomposing a created message token gives every field back exactly when
      the partition is non-empty, neither half of the name has a '%', the ids
      are non-empty and no part has a '/'. */
  lemma MessageTokenRoundTripIff(name: string, pUuid: string, nUuid: string, entityType: string, typeName: string)
    requires Decompose(name).Some?
    ensures DecomposedMessage(MessageToken(name, pUuid, nUuid, entityType, typeName))
         == Some((Token(TOKEN_PREFIX, Decompose(name).value.0, Decompose(name).value.1, pUuid, nUuid, entityType),
                  typeName))
       <==> Carried(name, pUuid, nUuid, entityType) && Free(typeName, '/')
  {
    hide Split, Terminated;
    var (partition, topic) := Decompose(name).value;
    var token := MessageToken(name, pUuid, nUuid, entityType, typeName);
    if Carried(name, pUuid, nUuid, entityType) && Free(typeName, '/') {
      TokenSplits(partition, topic, pUuid, nUuid, entityType, typeName);
      FieldsRead(partition, topic, pUuid, nUuid, entityType, typeName);
    }
    if DecomposedMessage(token).Some? {
      SplitFieldsAreFree(token, '/');
      HeadFieldsPlain(Split(token, '/'));
    }
  }

  /** Whatever an accepted token holds, its ids and entity type are plain and
      its names have no '%' and a non-empty partition. */
  lemma HeadFieldsPlain(f: seq<string>)
    requires GoodHead(f) && AllFree(f, '/')
    ensures var head := HeadOf(f);
            && Plain(head.pUuid) && Plain(head.nUuid) && Plain(head.entityType)
            && head.partition != "" && Free(head.partition, '%') && Free(head.topic, '%')
  {
    ReplaceRemoves(f[1], '%', '/');
    ReplaceRemoves(f[9], '%', '/');
    assert Free(f[2], '/') && Free(f[3], '/') && Free(f[5], '/');
  }

  /** The same for service tokens, whose two types must also be non-empty and
      free of '&' and '/'. */
  lemma ServiceTokenRoundTripIff(name: string, pUuid: string, nUuid: string, entityType: string,
                                 reqType: string, repType: string)
    requires Decompose(name).Some?
    ensures DecomposedService(ServiceToken(name, pUuid, nUuid, entityType, reqType, repType))
         == Some((Token(TOKEN_PREFIX, Decompose(name).value.0, Decompose(name).value.1, pUuid, nUuid, entityType),
                  reqType, repType))
       <==> && Carried(name, pUuid, nUuid, entityType)
            && GoodTypes([reqType, repType]) && Free(reqType, '/') && Free(repType, '/')
  {
    var (partition, topic) := Decompose(name).value;
    var token := ServiceToken(name, pUuid, nUuid, entityType, reqType, repType);
    if && Carried(name, pUuid, nUuid, entityType)
       && GoodTypes([reqType, repType]) && Free(reqType, '/') && Free(repType, '/') {
      var types := PairJoin(reqType, repType);
      TypesRoundTrip([reqType, repType]);
      TokenSplits(partition, topic, pUuid, nUuid, entityType, types);
      FieldsRead(partition, topic, pUuid, nUuid, entityType, types);
    }
    if DecomposedService(token).Some? {
      SplitFieldsAreFree(token, '/');
      HeadFieldsPlain(Split(token, '/'));
      TypesOfField(Split(token, '/')[10]);
    }
  }

  lemma PairJoin(reqType: string, repType: string) returns (types: string)
    ensures types == Join([reqType, repType], '&') == reqType + "&" + repType
  {
    assert [reqType, repType][1..] == [repType];
    types := reqType + "&" + repType;
  }

  /** The two types read from a slash-free field are good and slash-free. */
  lemma TypesOfField(field: string)
    requires Free(field, '/') && DemangledTypes(field).Some? && |DemangledTypes(field).value| == 2
    ensures var types := DemangledTypes(field).value;
            GoodTypes([types[0], types[1]]) && Free(types[0], '/') && Free(types[1], '/')
            && field == types[0] + "&" + types[1]
  {
    var types := Split(field, '&');
    SplitFieldsAreFree(field, '&');
    JoinOfSplit(field, '&');
    assert types == [types[0], types[1]];
    var joined := PairJoin(types[0], types[1]);
  }

  /** The publisher a liveliness handler rebuilds from an accepted token names
      the original topic again. */
  lemma TokenRestoresName(name: string, pUuid: string, nUuid: string, entityType: string, typeName: string)
    requires Carried(name, pUuid, nUuid, entityType) && Free(typeName, '/')
    ensures var d := DecomposedMessage(MessageToken(name, pUuid, nUuid, entityType, typeName));
            d.Some? && Compose(d.value.0.partition, d.value.0.topic) == name
  {
    MessageTokenRoundTripIff(name, pUuid, nUuid, entityType, typeName);
    DecomposeExact(name, Decompose(name).value.0, Decompose(name).value.1);
  }

  /** So does the publisher of a service. */
  lemma ServiceTokenRestoresName(name: string, pUuid: string, nUuid: string, entityType: string,
                                 reqType: string, repType: string)
    requires Carried(name, pUuid, nUuid, entityType)
    requires GoodTypes([reqType, repType]) && Free(reqType, '/') && Free(repType, '/')
    ensures var d := DecomposedService(ServiceToken(name, pUuid, nUuid, entityType, reqType, repType));
            d.Some? && Compose(d.value.0.partition, d.value.0.topic) == name
  {
    ServiceTokenRoundTripIff(name, pUuid, nUuid, entityType, reqType, repType);
    DecomposeExact(name, Decompose(name).value.0, Decompose(name).value.1);
  }

  /** Of all strings, given by their fields between slashes, the decomposers
      accept exactly these: thirteen fields, '@' first, nothing empty among the
      next nine nor at the type hash, and names that are valid once demangled;
      for a service a packed pair of types. */
  lemma AcceptedIff(fields: seq<string>)
    requires fields != [] && AllFree(fields, '/')
    ensures var message, service := DecomposedMessage(Join(fields, '/')), DecomposedService(Join(fields, '/'));
            && (message.Some? <==>
                  && |fields| == 13 && fields[0] != "" && fields[0][0] == '@'
                  && (forall i :: 1 <= i < 10 ==> fields[i] != "") && fields[11] != ""
                  && IsValidPartition(Replace(fields[1], '%', '/')) && IsValidTopic(Replace(fields[9], '%', '/')))
            && (message.Some? ==>
                  message.value == (Token(fields[0], Replace(fields[1], '%', '/'), Replace(fields[9], '%', '/'),
                                          fields[2], fields[3], fields[5]), fields[10]))
            && (service.Some? <==>
                  && message.Some? && DemangledTypes(fields[10]).Some? && |DemangledTypes(fields[10]).value| == 2)
            && (service.Some? ==>
                  && service.value.0 == message.value.0
                  && [service.value.1, service.value.2] == DemangledTypes(fields[10]).value)
  {
    SplitOfJoin(fields, '/');
    hide Split, Join, IsValidPartition, IsValidTopic, Replace, DemangledTypes;
  }

  /** A message token whose type has no '&' is never read as a service,
      whatever the name and however short the ids. */
  lemma MessageIsNotService(name: string, pUuid: string, nUuid: string, entityType: string, typeName: string)
    requires Free(pUuid, '/') && Free(nUuid, '/') && Free(entityType, '/') && Free(typeName, '/')
    requires Free(typeName, '&')
    ensures DecomposedService(MessageToken(name, pUuid, nUuid, entityType, typeName)).None?
  {
    SplitStep(typeName, '&');
    hide Split, Terminated;
    match Decompose(name)
    case None =>
      var tail := "%" + ['/'] + "%";
      TailSplits(typeName);
      assert MessageToken(name, pUuid, nUuid, entityType, typeName) == typeName + ['/'] + tail;
    case Some((partition, topic)) =>
      TokenSplits(partition, topic, pUuid, nUuid, entityType, typeName);
  }

  /** Conversely every service token is also accepted by the message
      decomposer, with the packed pair as its type: the handlers tell them
      apart by the entity type only. */
  lemma ServiceIsAlsoMessage(name: string, pUuid: string, nUuid: string, entityType: string,
                             reqType: string, repType: string)
    requires DecomposedService(ServiceToken(name, pUuid, nUuid, entityType, reqType, repType)).Some?
    ensures var token := ServiceToken(name, pUuid, nUuid, entityType, reqType, repType);
            && DecomposedMessage(token).Some?
            && DecomposedMessage(token).value.0 == DecomposedService(token).value.0
            && DecomposedMessage(token).value.1
               == DecomposedService(token).value.1 + "&" + DecomposedService(token).value.2
  {
    var f := Split(ServiceToken(name, pUuid, nUuid, entityType, reqType, repType), '/');
    SplitFieldsAreFree(ServiceToken(name, pUuid, nUuid, entityType, reqType, repType), '/');
    assert Free(f[10], '/');
    TypesOfField(f[10]);
  }
}
