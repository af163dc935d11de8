/** What a client listens to, and what its relay was told of it. */
module Subscriptions {
  import opened Bytes
  import opened Wire
  import opened Tcpq

  const LOG_CHANNEL_MAX: nat := 999

  const BACKSLASH: byte := 0x5C

  /** The characters a Java regex reads as more than themselves: \.+*?()|[]{}^$ */
  const SPECIALS: bytes := [0x5C, 0x2E, 0x2B, 0x2A, 0x3F, 0x28, 0x29, 0x7C, 0x5B, 0x5D, 0x7B, 0x7D, 0x5E, 0x24]

  // ---- The text that stands for a name -------------------------------------

  /** The first character of `s`, made to stand for itself. */
  function EscapedFirst(s: bytes): bytes
    requires s != [] && ScalarLen(s) > 0
  {
    (if s[0] in SPECIALS then [BACKSLASH] else []) + s[..ScalarLen(s)]
  }

  function Escaped(name: bytes): bytes
    requires IsUtf8(name)
    decreases |name|
  {
    if name == [] then [] else EscapedFirst(name) + Escaped(name[ScalarLen(name)..])
  }

  /** The operators of a Java regex, and what makes one stand for itself. */
  predicate IsOperator(b: byte) {
    || b == 0x5C || b == 0x2E || b == 0x2B || b == 0x2A || b == 0x3F || b == 0x28 || b == 0x29
    || b == 0x7C || b == 0x5B || b == 0x5D || b == 0x7B || b == 0x7D || b == 0x5E || b == 0x24
  }

  lemma OperatorIsSpecial(b: byte)
    ensures b in SPECIALS <==> IsOperator(b)
  {
  }

  /** What a regex with no operator in it stands for; `None` for one with. */
  function Literal(pattern: bytes): Option<bytes>
    decreases |pattern|
  {
    if pattern == [] then Some([])
    else if pattern[0] == 0x5C && |pattern| > 1 && IsOperator(pattern[1]) then
      match Literal(pattern[2..])
      case Some(rest) => Some([pattern[1]] + rest)
      case None => None
    else if IsOperator(pattern[0]) then None
    else
      match Literal(pattern[1..])
      case Some(rest) => Some([pattern[0]] + rest)
      case None => None
  }

  /** No byte behind the first of a character is an ASCII one. */
  lemma CharacterBytes(s: bytes, i: nat)
    requires s != [] && 0 < i < ScalarLen(s)
    ensures s[i] >= 0x80 && s[i] !in SPECIALS
  {
  }

  lemma SpecialIsOneByte(s: bytes)
    requires s != [] && s[0] in SPECIALS
    ensures ScalarLen(s) == 1
  {
  }

  lemma {:induction false} LiteralBehindPlain(plain: bytes, pattern: bytes)
    requires forall i :: 0 <= i < |plain| ==> !IsOperator(plain[i])
    ensures Literal(plain + pattern) ==
      match Literal(pattern) case Some(rest) => Some(plain + rest) case None => None
    decreases |plain|
  {
    if plain == [] {
      assert plain + pattern == pattern;
      assert Literal(pattern).Some? ==> plain + Literal(pattern).value == Literal(pattern).value;
    } else {
      LiteralBehindPlain(plain[1..], pattern);
      assert (plain + pattern)[1..] == plain[1..] + pattern;
      assert Literal(pattern).Some? ==> [plain[0]] + (plain[1..] + Literal(pattern).value) == plain + Literal(pattern).value;
    }
  }

  lemma LiteralBehindEscape(c: byte, pattern: bytes, rest: bytes)
    requires IsOperator(c) && Literal(pattern) == Some(rest)
    ensures Literal([BACKSLASH, c] + pattern) == Some([c] + rest)
  {
    assert ([BACKSLASH, c] + pattern)[2..] == pattern;
  }

  lemma NothingSpecial(s: bytes)
    requires s != [] && s[0] !in SPECIALS
    ensures forall i :: 0 <= i < ScalarLen(s) ==> !IsOperator(s[..ScalarLen(s)][i])
  {
    forall i | 0 <= i < ScalarLen(s)
      ensures !IsOperator(s[..ScalarLen(s)][i])
    {
      if i > 0 {
        CharacterBytes(s, i);
      }
      OperatorIsSpecial(s[i]);
    }
  }

  lemma LiteralOfNothing()
    ensures Literal([]) == Some([])
  {
  }

  /** An escaped name has no operator, and stands for the name and nothing else. */
  lemma {:induction false} EscapedStandsForItself(name: bytes)
    requires IsUtf8(name)
    ensures Literal(Escaped(name)) == Some(name)
    decreases |name|
  {
    hide ScalarLen, Literal, IsOperator;
    if name == [] {
      LiteralOfNothing();
    } else {
      var n := ScalarLen(name);
      var rest := name[n..];
      EscapedStandsForItself(rest);
      assert name == name[..n] + rest;
      if name[0] in SPECIALS {
        SpecialIsOneByte(name);
        assert name[..n] == [name[0]];
        OperatorIsSpecial(name[0]);
        LiteralBehindEscape(name[0], Escaped(rest), rest);
        assert Escaped(name) == [BACKSLASH, name[0]] + Escaped(rest);
      } else {
        NothingSpecial(name);
        LiteralBehindPlain(name[..n], Escaped(rest));
        assert Escaped(name) == name[..n] + Escaped(rest);
      }
    }
  }

  lemma CharacterThenText(c: bytes, s: bytes)
    requires c != [] && ScalarLen(c) == |c| && IsUtf8(s)
    ensures IsUtf8(c + s)
  {
    assert ScalarLen(c + s) == |c|;
    assert (c + s)[|c|..] == s;
  }

  lemma ScalarAlone(s: bytes)
    requires ScalarLen(s) > 0
    ensures ScalarLen(s[..ScalarLen(s)]) == ScalarLen(s)
  {
  }

  lemma EscapedFirstIsText(name: bytes, rest: bytes)
    requires name != [] && ScalarLen(name) > 0 && IsUtf8(rest)
    ensures IsUtf8(EscapedFirst(name) + rest)
  {
    hide ScalarLen, IsUtf8;
    var c := name[..ScalarLen(name)];
    ScalarAlone(name);
    CharacterThenText(c, rest);
    if name[0] in SPECIALS {
      SpecialIsOneByte([BACKSLASH]);
      CharacterThenText([BACKSLASH], c + rest);
      assert EscapedFirst(name) + rest == [BACKSLASH] + (c + rest);
    } else {
      assert EscapedFirst(name) + rest == c + rest;
    }
  }

  lemma {:induction false} EscapedIsText(name: bytes)
    requires IsUtf8(name)
    ensures IsUtf8(Escaped(name))
    decreases |name|
  {
    hide ScalarLen, EscapedFirst;
    if name != [] {
      EscapedIsText(name[ScalarLen(name)..]);
      EscapedFirstIsText(name, Escaped(name[ScalarLen(name)..]));
    }
  }

  /** The loop over the characters of a name. */
  method Escape(name: str) returns (out: bytes)
    ensures out == Escaped(name)
  {
    hide ScalarLen;
    out := [];
    var rest: bytes := name;
    while rest != []
      invariant IsUtf8(rest)
      invariant out + Escaped(rest) == Escaped(name)
      decreases |rest|
    {
      var n := ScalarLen(rest);
      ghost var before, behind := out, Escaped(rest[n..]);
      assert before + Escaped(rest) == before + EscapedFirst(rest) + behind;
      if rest[0] in SPECIALS {
        out := out + [BACKSLASH];
      }
      out := out + rest[..n];
      assert out == before + EscapedFirst(rest);
      rest := rest[n..];
    }
  }

  // ---- A set of rules ------------------------------------------------------

  datatype Rule = Name(name: str) | Pattern(pattern: str) {
    /** The text a caller subscribed with, and unsubscribes with. */
    function Text(): str {
      match this
      case Name(name) => name
      case Pattern(pattern) => pattern
    }

    /** What a relay is given. */
    function ForARelay(): str {
      match this
      case Name(name) =>
        EscapedIsText(name);
        Escaped(name)
      case Pattern(pattern) => pattern
    }
  }

  /** The place of the first rule of this text. */
  function Position(rules: seq<Rule>, text: str): (at: Option<nat>)
    ensures at.Some? ==> at.value < |rules| && rules[at.value].Text() == text
    ensures at.None? ==> forall i :: 0 <= i < |rules| ==> rules[i].Text() != text
    ensures at.Some? ==> forall i :: 0 <= i < at.value ==> rules[i].Text() != text
  {
    if rules == [] then None
    else if rules[0].Text() == text then Some(0)
    else
      match Position(rules[1..], text)
      case None => None
      case Some(n) => Some(n + 1)
  }

  function Without(rules: seq<Rule>, at: nat): seq<Rule>
    requires at < |rules|
  {
    rules[..at] + rules[at + 1..]
  }

  function RemoveFirst(rules: seq<Rule>, text: str): seq<Rule> {
    match Position(rules, text)
    case None => rules
    case Some(at) => Without(rules, at)
  }

  /** A name is checked against the limit of a log, which is the longest. */
  function CheckName(channel: str): Result<()> {
    CheckChannel(channel, LOG_CHANNEL_MAX)
  }

  class RuleSet {
    var rules: seq<Rule>

    constructor (rules: seq<Rule>)
      ensures this.rules == rules
    {
      this.rules := rules;
    }

    method Push(rule: Rule)
      modifies this
      ensures rules == old(rules) + [rule]
    {
      rules := rules + [rule];
    }

    /** The text that went to the relay for the rule a removal would take. */
    function Find(text: str): (told: Option<str>)
      reads this
      ensures told.Some? <==> exists i :: 0 <= i < |rules| && rules[i].Text() == text
    {
      match Position(rules, text)
      case None => None
      case Some(at) => Some(rules[at].ForARelay())
    }

    method Remove(text: str) returns (told: Option<str>)
      modifies this
      ensures told == old(Find(text)) && rules == RemoveFirst(old(rules), text)
    {
      var at := Position(rules, text);
      if at.None? {
        return None;
      }
      told := Some(rules[at.value].ForARelay());
      rules := rules[..at.value] + rules[at.value + 1..];
    }
  }

  // ---- A client and its relay ----------------------------------------------

  /** The rules of a client, and the requests its writer let in. */
  datatype Told = Told(rules: seq<Rule>, line: seq<Request>)

  /** A call, and whether the writer takes its frame: it can be slow or gone. */
  datatype Call =
    | AddName(channel: str, lets: bool)
    | AddPattern(pattern: str, lets: bool)
    | Drop(text: str, lets: bool)

  datatype Answer = Done | NotHeld | BadName(error: WireError) | BadPattern | NotTold

  function Apply(accepts: str -> bool, t: Told, call: Call): (Told, Answer) {
    match call
    case AddName(channel, lets) =>
      if CheckName(channel).Err? then (t, BadName(CheckName(channel).error))
      else if !lets then (t, NotTold)
      else (Told(t.rules + [Name(channel)], t.line + [Subscribe(Name(channel).ForARelay())]), Done)
    case AddPattern(pattern, lets) =>
      if !accepts(pattern) then (t, BadPattern)
      else if !lets then (t, NotTold)
      else (Told(t.rules + [Pattern(pattern)], t.line + [Subscribe(pattern)]), Done)
    case Drop(text, lets) =>
      match Position(t.rules, text)
      case None => (t, NotHeld)
      case Some(at) =>
        if !lets then (t, NotTold)
        else (Told(Without(t.rules, at), t.line + [Unsubscribe(t.rules[at].ForARelay())]), Done)
  }

  function ApplyAll(accepts: str -> bool, t: Told, calls: seq<Call>): Told {
    if calls == [] then t else Apply(accepts, ApplyAll(accepts, t, calls[..|calls| - 1]), calls[|calls| - 1]).0
  }

  /** What a client sends for the rules it was made with. */
  function Opening(rules: seq<Rule>): seq<Request> {
    if rules == [] then [] else Opening(rules[..|rules| - 1]) + [Subscribe(rules[|rules| - 1].ForARelay())]
  }

  function Connected(rules: seq<Rule>): Told {
    Told(rules, Opening(rules))
  }

  /** The client: the relay is told before the set changes, so an error leaves
      both as they were. */
  class Client {
    const rules: RuleSet
    var line: seq<Request>

    ghost function State(): Told
      reads this, rules
    {
      Told(rules.rules, line)
    }

    constructor (first: seq<Rule>)
      ensures fresh(rules) && State() == Connected(first)
    {
      rules := new RuleSet(first);
      line := Opening(first);
    }

    method TellRelay(q: Request, lets: bool) returns (told: bool)
      modifies this
      ensures told == lets && line == if lets then old(line) + [q] else old(line)
    {
      if lets {
        line := line + [q];
      }
      told := lets;
    }

    method SubscribeName(accepts: str -> bool, channel: str, lets: bool) returns (answer: Answer)
      modifies this, rules
      ensures (State(), answer) == Apply(accepts, old(State()), AddName(channel, lets))
    {
      hide Escaped, CheckName;
      var checked := CheckName(channel);
      if checked.Err? {
        return BadName(checked.error);
      }
      var told := TellRelay(Subscribe(Name(channel).ForARelay()), lets);
      if !told {
        return NotTold;
      }
      rules.Push(Name(channel));
      return Done;
    }

    method SubscribePattern(accepts: str -> bool, pattern: str, lets: bool) returns (answer: Answer)
      modifies this, rules
      ensures (State(), answer) == Apply(accepts, old(State()), AddPattern(pattern, lets))
    {
      if !accepts(pattern) {
        return BadPattern;
      }
      var told := TellRelay(Subscribe(pattern), lets);
      if !told {
        return NotTold;
      }
      rules.Push(Pattern(pattern));
      return Done;
    }

    method UnsubscribeText(accepts: str -> bool, text: str, lets: bool) returns (answer: Answer)
      modifies this, rules
      ensures (State(), answer) == Apply(accepts, old(State()), Drop(text, lets))
    {
      hide Escaped, Rule.ForARelay;
      var held := rules.Find(text);
      if held.None? {
        return NotHeld;
      }
      var told := TellRelay(Unsubscribe(held.value), lets);
      if !told {
        return NotTold;
      }
      var _ := rules.Remove(text);
      return Done;
    }
  }

  /** The relay: a pattern its engine refuses costs the pattern alone. */
  function Serve(accepts: str -> bool, held: seq<Rule>, q: Request): seq<Rule> {
    match q
    case Publish(_) => held
    case Subscribe(pattern) => if accepts(pattern) then held + [Pattern(pattern)] else held
    case Unsubscribe(pattern) => RemoveFirst(held, pattern)
  }

  function ServeAll(accepts: str -> bool, held: seq<Rule>, qs: seq<Request>): seq<Rule> {
    if qs == [] then held else Serve(accepts, ServeAll(accepts, held, qs[..|qs| - 1]), qs[|qs| - 1])
  }

  /** The texts a relay holds for these rules, each as many times as it does. */
  function Texts(rules: seq<Rule>): multiset<str> {
    if rules == [] then multiset{} else Texts(rules[..|rules| - 1]) + multiset{rules[|rules| - 1].ForARelay()}
  }

  ghost predicate AllPatterns(rules: seq<Rule>) {
    forall i :: 0 <= i < |rules| ==> rules[i].Pattern?
  }

  ghost predicate AllAccepted(accepts: str -> bool, qs: seq<Request>) {
    forall i :: 0 <= i < |qs| && qs[i].Subscribe? ==> accepts(qs[i].pattern)
  }

  lemma TextsPush(rules: seq<Rule>, rule: Rule)
    ensures Texts(rules + [rule]) == Texts(rules) + multiset{rule.ForARelay()}
  {
    assert (rules + [rule])[..|rules|] == rules;
  }

  lemma {:induction false} TextsWithout(rules: seq<Rule>, at: nat)
    requires at < |rules|
    ensures Texts(rules) == Texts(Without(rules, at)) + multiset{rules[at].ForARelay()}
  {
    hide Rule.ForARelay;
    var n := |rules| - 1;
    if at == n {
      assert Without(rules, at) == rules[..n];
    } else {
      TextsWithout(rules[..n], at);
      assert Without(rules, at) == Without(rules[..n], at) + [rules[n]];
      TextsPush(Without(rules[..n], at), rules[n]);
    }
  }

  lemma PositionFound(rules: seq<Rule>, text: str, i: nat)
    requires i < |rules| && rules[i].Text() == text
    ensures Position(rules, text).Some?
  {
  }

  lemma PositionInFront(rules: seq<Rule>, text: str)
    requires rules != [] && Position(rules[..|rules| - 1], text).Some?
    ensures Position(rules, text).Some?
  {
    var at := Position(rules[..|rules| - 1], text).value;
    assert rules[at] == rules[..|rules| - 1][at];
    PositionFound(rules, text, at);
  }

  lemma {:induction false} TextIsThere(rules: seq<Rule>, text: str)
    requires AllPatterns(rules) && text in Texts(rules)
    ensures Position(rules, text).Some?
  {
    hide Position;
    if rules != [] {
      var n := |rules| - 1;
      if rules[n].pattern != text {
        TextIsThere(rules[..n], text);
        PositionInFront(rules, text);
      } else {
        PositionFound(rules, text, n);
      }
    }
  }

  /** One request more: the relay's texts change as the client's do. */
  lemma ServeUnsubscribe(accepts: str -> bool, held: seq<Rule>, text: str)
    requires AllPatterns(held) && text in Texts(held)
    ensures var after := Serve(accepts, held, Unsubscribe(text));
      AllPatterns(after) && Texts(held) == Texts(after) + multiset{text}
  {
    hide Texts;
    TextIsThere(held, text);
    TextsWithout(held, Position(held, text).value);
  }

  lemma ServeSnoc(accepts: str -> bool, qs: seq<Request>, q: Request)
    ensures ServeAll(accepts, [], qs + [q]) == Serve(accepts, ServeAll(accepts, [], qs), q)
  {
    assert (qs + [q])[..|qs|] == qs;
  }

  ghost predicate Agree(accepts: str -> bool, t: Told) {
    var held := ServeAll(accepts, [], t.line);
    AllPatterns(held) && Texts(held) == Texts(t.rules)
  }

  lemma PushAgrees(accepts: str -> bool, held: seq<Rule>, rules: seq<Rule>, rule: Rule)
    requires AllPatterns(held) && Texts(held) == Texts(rules) && accepts(rule.ForARelay())
    ensures var after := Serve(accepts, held, Subscribe(rule.ForARelay()));
      AllPatterns(after) && Texts(after) == Texts(rules + [rule])
  {
    hide Texts, Escaped;
    TextsPush(rules, rule);
    TextsPush(held, Pattern(rule.ForARelay()));
  }

  lemma {:induction false} AgreeAtStart(accepts: str -> bool, rules: seq<Rule>)
    requires AllAccepted(accepts, Opening(rules))
    ensures Agree(accepts, Connected(rules))
  {
    hide Rule.ForARelay, Texts, Serve;
    if rules == [] {
      assert Texts(Connected(rules).rules) == Texts(ServeAll(accepts, [], Connected(rules).line));
    } else {
      var front, last := rules[..|rules| - 1], rules[|rules| - 1];
      var line := Opening(front);
      assert Opening(rules) == line + [Subscribe(last.ForARelay())];
      assert forall i :: 0 <= i < |line| ==> Opening(rules)[i] == line[i];
      AgreeAtStart(accepts, front);
      ServeSnoc(accepts, line, Subscribe(last.ForARelay()));
      assert Opening(rules)[|line|] == Subscribe(last.ForARelay());
      PushAgrees(accepts, ServeAll(accepts, [], line), front, last);
      assert front + [last] == rules;
    }
  }

  lemma IsItsOwnText(pattern: str)
    ensures Pattern(pattern).ForARelay() == pattern
  {
  }

  lemma ApplyAgrees(accepts: str -> bool, t: Told, call: Call)
    requires Agree(accepts, t) && AllAccepted(accepts, Apply(accepts, t, call).0.line)
    ensures Agree(accepts, Apply(accepts, t, call).0)
  {
    hide Rule.ForARelay, CheckName, Texts, ServeAll;
    var (after, answer) := Apply(accepts, t, call);
    if answer.Done? {
      var q := after.line[|t.line|];
      assert after.line == t.line + [q];
      ServeSnoc(accepts, t.line, q);
      var held := ServeAll(accepts, [], t.line);
      match call
      case AddName(channel, _) => PushAgrees(accepts, held, t.rules, Name(channel));
      case AddPattern(pattern, _) =>
        IsItsOwnText(pattern);
        PushAgrees(accepts, held, t.rules, Pattern(pattern));
      case Drop(text, _) =>
        var at := Position(t.rules, text).value;
        var told := t.rules[at].ForARelay();
        TextsWithout(t.rules, at);
        assert told in Texts(t.rules);
        ServeUnsubscribe(accepts, held, told);
        assert Texts(Without(t.rules, at)) == Texts(t.rules) - multiset{told};
        assert Texts(Serve(accepts, held, Unsubscribe(told))) == Texts(held) - multiset{told};
    }
  }

  lemma LineGrows(accepts: str -> bool, t: Told, call: Call)
    ensures t.line <= Apply(accepts, t, call).0.line
  {
    hide Rule.ForARelay, CheckName;
  }

  /** Whatever calls are made, and whichever of them are refused, a relay that
      served every request let in holds the client's rules, text for text. */
  lemma {:induction false} RelayAgrees(accepts: str -> bool, rules: seq<Rule>, calls: seq<Call>)
    requires AllAccepted(accepts, ApplyAll(accepts, Connected(rules), calls).line)
    ensures Agree(accepts, ApplyAll(accepts, Connected(rules), calls))
  {
    hide Agree, Apply;
    if calls == [] {
      AgreeAtStart(accepts, rules);
    } else {
      var front := calls[..|calls| - 1];
      var t := ApplyAll(accepts, Connected(rules), front);
      LineGrows(accepts, t, calls[|calls| - 1]);
      assert forall i :: 0 <= i < |t.line| ==> ApplyAll(accepts, Connected(rules), calls).line[i] == t.line[i];
      RelayAgrees(accepts, rules, front);
      ApplyAgrees(accepts, t, calls[|calls| - 1]);
    }
  }

  // ---- What the calls come to ----------------------------------------------

  /** How many of the rules have this text. */
  function CountOf(rules: seq<Rule>, text: str): nat {
    if rules == [] then 0
    else CountOf(rules[..|rules| - 1], text) + if rules[|rules| - 1].Text() == text then 1 else 0
  }

  function AnswersTo(accepts: str -> bool, t: Told, calls: seq<Call>): (answers: seq<Answer>)
    ensures |answers| == |calls|
  {
    if calls == [] then []
    else
      var front := calls[..|calls| - 1];
      AnswersTo(accepts, t, front) + [Apply(accepts, ApplyAll(accepts, t, front), calls[|calls| - 1]).1]
  }

  predicate Adds(call: Call, text: str) {
    match call
    case AddName(channel, _) => channel == text
    case AddPattern(pattern, _) => pattern == text
    case Drop(_, _) => false
  }

  predicate Drops(call: Call, dropped: str) {
    match call
    case Drop(text, _) => text == dropped
    case _ => false
  }

  /** The calls answered `Done` that add this text, and those that drop it. */
  function AddsDone(calls: seq<Call>, answers: seq<Answer>, text: str): nat
    requires |answers| == |calls|
  {
    if calls == [] then 0
    else
      var n := |calls| - 1;
      AddsDone(calls[..n], answers[..n], text) + if answers[n].Done? && Adds(calls[n], text) then 1 else 0
  }

  function DropsDone(calls: seq<Call>, answers: seq<Answer>, text: str): nat
    requires |answers| == |calls|
  {
    if calls == [] then 0
    else
      var n := |calls| - 1;
      DropsDone(calls[..n], answers[..n], text) + if answers[n].Done? && Drops(calls[n], text) then 1 else 0
  }

  /** How many of the calls were answered `Done`. */
  function AllDone(answers: seq<Answer>): nat {
    if answers == [] then 0
    else AllDone(answers[..|answers| - 1]) + if answers[|answers| - 1].Done? then 1 else 0
  }

  lemma CountPush(rules: seq<Rule>, rule: Rule, text: str)
    ensures CountOf(rules + [rule], text) == CountOf(rules, text) + if rule.Text() == text then 1 else 0
  {
    assert (rules + [rule])[..|rules|] == rules;
  }

  lemma {:induction false} CountWithout(rules: seq<Rule>, at: nat, text: str)
    requires at < |rules|
    ensures CountOf(rules, text) == CountOf(Without(rules, at), text) + if rules[at].Text() == text then 1 else 0
  {
    hide Rule.Text;
    var n := |rules| - 1;
    if at == n {
      assert Without(rules, at) == rules[..n];
    } else {
      CountWithout(rules[..n], at, text);
      assert Without(rules, at) == Without(rules[..n], at) + [rules[n]];
      CountPush(Without(rules[..n], at), rules[n], text);
    }
  }

  lemma {:induction false} CountIsThere(rules: seq<Rule>, text: str)
    ensures CountOf(rules, text) > 0 <==> exists i :: 0 <= i < |rules| && rules[i].Text() == text
  {
    hide Rule.Text;
    if rules != [] {
      var n := |rules| - 1;
      CountIsThere(rules[..n], text);
      if i :| 0 <= i < n && rules[i].Text() == text {
        assert rules[..n][i].Text() == text;
      }
      if i :| 0 <= i < n && rules[..n][i].Text() == text {
        assert rules[i].Text() == text;
      }
    }
  }

  /** The text that stands for a rule with a relay: the pattern itself, or a regex
      that stands for the name and no other. */
  ghost predicate StandsFor(text: str, rule: Rule) {
    match rule
    case Name(name) => Literal(text) == Some(name)
    case Pattern(pattern) => text == pattern
  }

  lemma ToldStandsFor(rule: Rule)
    ensures StandsFor(rule.ForARelay(), rule)
  {
    hide Escaped, Literal;
    if rule.Name? {
      EscapedIsText(rule.name);
      EscapedStandsForItself(rule.name);
    }
  }

  /** A rule more, and a request that tells the relay of it. */
  ghost predicate Added(t: Told, after: Told, rule: Rule) {
    && after.rules == t.rules + [rule]
    && |after.line| == |t.line| + 1 && t.line <= after.line
    && after.line[|t.line|].Subscribe? && StandsFor(after.line[|t.line|].pattern, rule)
  }

  /** The first rule of this text less, and a request that tells the relay. */
  ghost predicate Removed(t: Told, after: Told, at: nat, text: str) {
    && at < |t.rules| && t.rules[at].Text() == text && (forall i :: 0 <= i < at ==> t.rules[i].Text() != text)
    && after.rules == t.rules[..at] + t.rules[at + 1..]
    && |after.line| == |t.line| + 1 && t.line <= after.line
    && after.line[|t.line|].Unsubscribe? && StandsFor(after.line[|t.line|].pattern, t.rules[at])
  }

  /** A name is taken exactly where it has from 1 to 999 bytes, no NUL among them,
      and its frame is let in. */
  lemma NameIsAnswered(accepts: str -> bool, t: Told, channel: str, lets: bool)
    ensures var (after, answer) := Apply(accepts, t, AddName(channel, lets));
      var good := 1 <= |channel| <= 999 && 0 !in channel;
      && (answer.Done? <==> good && lets) && (answer.BadName? <==> !good) && (answer.NotTold? <==> good && !lets)
      && (if answer.Done? then Added(t, after, Name(channel)) else after == t)
  {
    hide Rule.ForARelay, StandsFor;
    ToldStandsFor(Name(channel));
  }

  /** A pattern is taken exactly where the engine takes it and its frame is let
      in. */
  lemma PatternIsAnswered(accepts: str -> bool, t: Told, pattern: str, lets: bool)
    ensures var (after, answer) := Apply(accepts, t, AddPattern(pattern, lets));
      && (answer.Done? <==> accepts(pattern) && lets)
      && (answer.BadPattern? <==> !accepts(pattern)) && (answer.NotTold? <==> accepts(pattern) && !lets)
      && (if answer.Done? then Added(t, after, Pattern(pattern)) else after == t)
  {
  }

  /** A text is dropped exactly where a rule has it and the frame is let in. */
  lemma DropIsAnswered(accepts: str -> bool, t: Told, text: str, lets: bool) returns (at: nat)
    ensures var (after, answer) := Apply(accepts, t, Drop(text, lets));
      var held := CountOf(t.rules, text) > 0;
      && (answer.Done? <==> held && lets) && (answer.NotHeld? <==> !held) && (answer.NotTold? <==> held && !lets)
      && (if answer.Done? then Removed(t, after, at, text) else after == t)
  {
    hide Rule.ForARelay, StandsFor, CountOf;
    CountIsThere(t.rules, text);
    at := 0;
    if Position(t.rules, text).Some? {
      at := Position(t.rules, text).value;
      ToldStandsFor(t.rules[at]);
    }
  }

  lemma CallIsCounted(accepts: str -> bool, t: Told, call: Call, text: str)
    ensures var (after, answer) := Apply(accepts, t, call);
      && CountOf(after.rules, text) + (if answer.Done? && Drops(call, text) then 1 else 0)
         == CountOf(t.rules, text) + (if answer.Done? && Adds(call, text) then 1 else 0)
      && |after.line| == |t.line| + if answer.Done? then 1 else 0
  {
    hide CountOf, StandsFor, Apply;
    match call
    case AddName(channel, lets) =>
      NameIsAnswered(accepts, t, channel, lets);
      CountPush(t.rules, Name(channel), text);
    case AddPattern(pattern, lets) =>
      PatternIsAnswered(accepts, t, pattern, lets);
      CountPush(t.rules, Pattern(pattern), text);
    case Drop(dropped, lets) =>
      var at := DropIsAnswered(accepts, t, dropped, lets);
      if Apply(accepts, t, call).1.Done? {
        CountWithout(t.rules, at, text);
      }
  }

  /** Over any calls, the rules of a text are those there were, and the adds of it
      that were done, without the drops of it that were done; and each call that
      was done told the relay once, and no other did. */
  lemma {:induction false} CallsAreCounted(accepts: str -> bool, t: Told, calls: seq<Call>, text: str)
    ensures var after, answers := ApplyAll(accepts, t, calls), AnswersTo(accepts, t, calls);
      && CountOf(after.rules, text) + DropsDone(calls, answers, text)
         == CountOf(t.rules, text) + AddsDone(calls, answers, text)
      && |after.line| == |t.line| + AllDone(answers)
  {
    hide Apply, CountOf, Adds, Drops;
    if calls != [] {
      var n := |calls| - 1;
      var front := calls[..n];
      CallsAreCounted(accepts, t, front, text);
      CallIsCounted(accepts, ApplyAll(accepts, t, front), calls[n], text);
      assert AnswersTo(accepts, t, calls)[..n] == AnswersTo(accepts, t, front);
    }
  }

  /** What one request does to the rules a relay holds: a subscription its engine
      takes is one more of its text, an end of one is one less where there is any,
      and nothing else changes any. */
  lemma ServedIsCounted(accepts: str -> bool, held: seq<Rule>, q: Request, text: str)
    ensures var before, now := CountOf(held, text), CountOf(Serve(accepts, held, q), text);
      match q
      case Publish(_) => now == before
      case Subscribe(pattern) => now == before + if pattern == text && accepts(pattern) then 1 else 0
      case Unsubscribe(pattern) => now == if pattern == text && before > 0 then before - 1 else before
  {
    hide CountOf;
    match q
    case Publish(_) =>
    case Subscribe(pattern) => CountPush(held, Pattern(pattern), text);
    case Unsubscribe(pattern) =>
      CountIsThere(held, text);
      if Position(held, pattern).Some? {
        CountWithout(held, Position(held, pattern).value, text);
      }
  }

  // ---- Where the two do not agree ------------------------------------------

  function Dots(n: nat): (s: bytes)
    ensures |s| == n && IsUtf8(s) && 0 !in s
  {
    if n == 0 then [] else [0x2E] + Dots(n - 1)
  }

  lemma {:induction false} DotsDouble(n: nat)
    ensures |Escaped(Dots(n))| == 2 * n
  {
    if n > 0 {
      DotsDouble(n - 1);
      assert Dots(n)[0] in SPECIALS && ScalarLen(Dots(n)) == 1;
      assert Dots(n)[1..] == Dots(n - 1);
    }
  }

  /** A name of 513 to 999 dots is one a client takes and tells its relay of,
      and the relay's reader refuses it: each dot is two bytes there, and the
      stream of the client ends. `Tcpq.PatternRoundTrip` says which texts a relay
      reads. */
  lemma DottedNameEndsTheStream(n: nat)
    requires 1024 < 2 * n && n <= 999
    ensures CheckName(Dots(n)).Ok?
    ensures DecodeRequest(Encode(Subscribe(Name(Dots(n)).ForARelay())).value) == Err(ChannelTooLong(2 * n))
  {
    DotsDouble(n);
    var q := Subscribe(Name(Dots(n)).ForARelay());
    LongTextIsRefused(q, []);
    assert Encode(q).value + [] == Encode(q).value;
  }
}
