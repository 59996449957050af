/**
 One-shot button callbacks of the Telegram and the Slack sidecar: a map of live
 tokens and a list of the last 256 tokens made, whether still live or not.
 */
module Callbacks {
  import opened Prelude

  const MAX_CALLBACKS: nat := 256
  const MAX_BUTTONS: nat := 100
  const MAX_VALUE_BYTES: nat := 1024

  type Token = string

  datatype Entry = Entry(channel: string, message: string, caption: string, value: seq<bv8>) {
    predicate On(onChannel: string, ofMessage: string) {
      channel == onChannel && message == ofMessage
    }
  }

  datatype Registry = Registry(items: map<Token, Entry>, order: seq<Token>)

  /** What one hold of the lock does. */
  datatype Step =
    | Make(token: Token, entry: Entry)
    | Consume(wanted: Token, channel: string)
    | Bind(tokens: seq<Token>, message: string)
    | Drop(dropped: seq<Token>)
    | DropMessage(onChannel: string, ofMessage: string)

  // ---- one step ----

  function Trim(r: Registry): Registry
    decreases |r.order|
  {
    if |r.order| > MAX_CALLBACKS then Trim(Registry(r.items - {r.order[0]}, r.order[1..])) else r
  }

  predicate Hit(r: Registry, token: Token, channel: string) {
    token in r.items && r.items[token].channel == channel
  }

  function Bound(items: map<Token, Entry>, tokens: seq<Token>, message: string): map<Token, Entry> {
    map t | t in items :: if t in tokens then items[t].(message := message) else items[t]
  }

  function Next(r: Registry, s: Step): Registry {
    match s
    case Make(token, entry) => Trim(Registry(r.items[token := entry], r.order + [token]))
    case Consume(token, channel) => if Hit(r, token, channel) then r.(items := r.items - {token}) else r
    case Bind(tokens, message) => r.(items := Bound(r.items, tokens, message))
    case Drop(tokens) => r.(items := map t | t in r.items && t !in tokens :: r.items[t])
    case DropMessage(channel, message) =>
      r.(items := map t | t in r.items && !r.items[t].On(channel, message) :: r.items[t])
  }

  function Run(r: Registry, steps: seq<Step>): Registry {
    if steps == [] then r else Next(Run(r, steps[..|steps| - 1]), steps[|steps| - 1])
  }

  // ---- one token on its own ----

  /** What became of one token: how many tokens were made after it, and whether it was taken out. */
  datatype Fate = Unmade | Made(entry: Entry, later: nat) | Gone

  function Onward(f: Fate, token: Token, s: Step): Fate {
    match s
    case Make(t, entry) =>
      if t == token then Made(entry, 0)
      else if !f.Made? then f
      else if f.later + 1 >= 256 then Gone
      else f.(later := f.later + 1)
    case Consume(t, channel) => if f.Made? && t == token && f.entry.channel == channel then Gone else f
    case Bind(tokens, message) => if f.Made? && token in tokens then f.(entry := f.entry.(message := message)) else f
    case Drop(tokens) => if f.Made? && token in tokens then Gone else f
    case DropMessage(channel, message) =>
      if f.Made? && f.entry.On(channel, message) then Gone else f
  }

  function FateOf(token: Token, steps: seq<Step>): Fate {
    if steps == [] then Unmade else Onward(FateOf(token, steps[..|steps| - 1]), token, steps[|steps| - 1])
  }

  function Empty(): Registry {
    Registry(map[], [])
  }

  // ---- the registry against single tokens ----

  /** The tokens made, in order. */
  function Drawn(steps: seq<Step>): seq<Token> {
    if steps == [] then []
    else Drawn(steps[..|steps| - 1]) + if steps[|steps| - 1].Make? then [steps[|steps| - 1].token] else []
  }

  function Last(s: seq<Token>, n: nat): seq<Token> {
    if |s| <= n then s else s[|s| - n..]
  }

  ghost predicate NoTwice(s: seq<Token>) {
    forall i, j :: 0 <= i < j < |s| ==> s[i] != s[j]
  }

  /** No token is drawn twice. */
  ghost predicate Fresh(steps: seq<Step>) {
    NoTwice(Drawn(steps))
  }

  /** The list holds the last 256 tokens made, and only listed tokens are live. */
  ghost predicate Tidy(r: Registry, drawn: seq<Token>) {
    && r.order == Last(drawn, 256)
    && forall t <- r.items :: t in r.order
  }

  /** A live token is one whose own fate says so. */
  ghost predicate Tells(r: Registry, drawn: seq<Token>, token: Token, f: Fate) {
    && (f.Unmade? <==> token !in drawn)
    && (f.Made? <==> token in r.items)
    && (f.Made? ==> r.items[token] == f.entry && f.later < |r.order| && r.order[|r.order| - 1 - f.later] == token)
  }

  lemma TrimOnce(r: Registry)
    requires |r.order| <= MAX_CALLBACKS + 1
    ensures Trim(r) == if |r.order| <= MAX_CALLBACKS then r else Registry(r.items - {r.order[0]}, r.order[1..])
  {
  }

  lemma MakeKeeps(r: Registry, drawn: seq<Token>, made: Token, entry: Entry)
    requires Tidy(r, drawn) && NoTwice(drawn + [made])
    ensures Tidy(Next(r, Make(made, entry)), drawn + [made])
  {
    var full := Registry(r.items[made := entry], r.order + [made]);
    TrimOnce(full);
    var after := Trim(full);
    forall t <- after.items ensures t in after.order {
      assert t in full.order;
    }
  }

  lemma MakeTells(r: Registry, drawn: seq<Token>, made: Token, entry: Entry, token: Token, f: Fate)
    requires Tidy(r, drawn) && NoTwice(drawn + [made]) && Tells(r, drawn, token, f)
    ensures Tells(Next(r, Make(made, entry)), drawn + [made], token, Onward(f, token, Make(made, entry)))
  {
    var full := Registry(r.items[made := entry], r.order + [made]);
    TrimOnce(full);
    var all := drawn + [made];
    if token == made {
      assert all[|drawn|] == made;
      assert |r.order| == MAX_CALLBACKS ==> all[|drawn| - MAX_CALLBACKS] == r.order[0];
    } else if f.Made? && |r.order| == MAX_CALLBACKS {
      assert all[|drawn| - 1 - f.later] == token && all[|drawn| - MAX_CALLBACKS] == r.order[0];
    }
  }

  lemma OtherKeeps(r: Registry, drawn: seq<Token>, s: Step, token: Token, f: Fate)
    requires Tidy(r, drawn) && Tells(r, drawn, token, f) && !s.Make?
    ensures Tidy(Next(r, s), drawn) && Tells(Next(r, s), drawn, token, Onward(f, token, s))
  {
  }

  /**
   After any run with fresh tokens: at most 256 listed, live ones among them, and each lives exactly
   as long as its own fate says.
   */
  lemma {:induction false} EachTokenForItself(steps: seq<Step>, token: Token)
    requires Fresh(steps)
    ensures Tidy(Run(Empty(), steps), Drawn(steps)) && |Run(Empty(), steps).order| <= 256
    ensures Tells(Run(Empty(), steps), Drawn(steps), token, FateOf(token, steps))
  {
    if steps != [] {
      var earlier, s := steps[..|steps| - 1], steps[|steps| - 1];
      var r, drawn := Run(Empty(), earlier), Drawn(earlier);
      assert drawn <= Drawn(steps);
      EachTokenForItself(earlier, token);
      if s.Make? {
        MakeKeeps(r, drawn, s.token, s.entry);
        MakeTells(r, drawn, s.token, s.entry, token, FateOf(token, earlier));
      } else {
        OtherKeeps(r, drawn, s, token, FateOf(token, earlier));
      }
    }
  }

  // ---- consumed at most once ----

  /** How often the token was given out. */
  function TimesConsumed(token: Token, r: Registry, steps: seq<Step>): nat {
    if steps == [] then 0
    else
      var n := |steps| - 1;
      TimesConsumed(token, r, steps[..n])
      + if steps[n].Consume? && steps[n].wanted == token &&
           Hit(Run(r, steps[..n]), token, steps[n].channel) then 1 else 0
  }

  /** A token is given out at most once, whatever else happens, and only while it is live. */
  lemma {:induction false} ConsumedAtMostOnce(steps: seq<Step>, token: Token)
    requires Fresh(steps)
    ensures TimesConsumed(token, Empty(), steps) <= 1
    ensures TimesConsumed(token, Empty(), steps) == 1 ==>
              FateOf(token, steps).Gone? && token !in Run(Empty(), steps).items
  {
    EachTokenForItself(steps, token);
    if steps != [] {
      var n := |steps| - 1;
      var earlier := steps[..n];
      assert Drawn(earlier) <= Drawn(steps);
      ConsumedAtMostOnce(earlier, token);
      EachTokenForItself(earlier, token);
    }
  }

  // ---- registering a row of buttons ----

  datatype Button = Button(text: string, value: seq<bv8>)

  predicate Good(b: Button, maxText: nat) {
    b.text != "" && b.value != [] && |b.text| <= maxText && |b.value| <= MAX_VALUE_BYTES
  }

  /** One call: the buttons, the token drawn for each (or none), and what others do before each hold of the lock. */
  datatype Call = Call(channel: string, buttons: seq<Button>, draws: seq<Option<Token>>, others: seq<seq<Step>>,
                       maxText: nat, encodes: bool)

  predicate WellFormed(c: Call) {
    |c.draws| == |c.buttons| && |c.others| == |c.buttons| + 1
  }

  predicate Passes(c: Call, i: nat)
    requires WellFormed(c) && i < |c.buttons|
  {
    Good(c.buttons[i], c.maxText) && c.draws[i].Some?
  }

  /** What entering the i-th button does. */
  function Row(c: Call, i: nat): (s: Step)
    requires WellFormed(c) && i < |c.buttons| && Passes(c, i)
    ensures s.Make?
  {
    Make(c.draws[i].value, Entry(c.channel, "", c.buttons[i].text, c.buttons[i].value))
  }

  predicate Succeeds(c: Call)
    requires WellFormed(c)
  {
    |c.buttons| <= MAX_BUTTONS && c.encodes && forall i :: 0 <= i < |c.buttons| ==> Passes(c, i)
  }

  /** A button with a text within the limit, a value of at most 1024 bytes, and a token drawn for it. */
  predicate Fine(c: Call, i: nat)
    requires WellFormed(c) && i < |c.buttons|
  {
    var b := c.buttons[i];
    b.text != "" && |b.text| <= c.maxText && b.value != [] && |b.value| <= 1024 && c.draws[i].Some?
  }

  /** A call succeeds exactly with at most 100 buttons that are all fine. */
  lemma SucceedsExactly(c: Call)
    requires WellFormed(c)
    ensures Succeeds(c) <==> |c.buttons| <= 100 && c.encodes && forall i :: 0 <= i < |c.buttons| ==> Fine(c, i)
  {
    assert forall i :: 0 <= i < |c.buttons| ==> (Passes(c, i) <==> Fine(c, i));
  }

  /** The first k buttons, entered among the steps of others. */
  function Makes(c: Call, k: nat): seq<Step>
    requires WellFormed(c) && k <= |c.buttons| && forall i :: 0 <= i < k ==> Passes(c, i)
  {
    if k == 0 then []
    else
      Makes(c, k - 1) + c.others[k - 1] + [Row(c, k - 1)]
  }

  function TokensOf(c: Call, k: nat): seq<Token>
    requires WellFormed(c) && k <= |c.buttons| && forall i :: 0 <= i < k ==> Passes(c, i)
  {
    seq(k, i requires 0 <= i < k => Row(c, i).token)
  }

  /** The k buttons entered were all there were, or those before the one that failed. */
  predicate Reaches(c: Call, k: nat)
    requires WellFormed(c)
  {
    && k <= |c.buttons|
    && (forall i :: 0 <= i < k ==> Passes(c, i))
    && (if |c.buttons| > MAX_BUTTONS then k == 0 else k < |c.buttons| ==> !Passes(c, k))
  }

  /** All steps of the call that entered k buttons: a failed one takes its tokens back. */
  function Steps(c: Call, k: nat): seq<Step>
    requires WellFormed(c) && Reaches(c, k)
  {
    Makes(c, k) + if Succeeds(c) || |c.buttons| > MAX_BUTTONS then [] else c.others[k] + [Drop(TokensOf(c, k))]
  }

  lemma {:induction false} RunConcat(r: Registry, a: seq<Step>, b: seq<Step>)
    ensures Run(r, a + b) == Run(Run(r, a), b)
  {
    if b == [] {
      assert a + b == a;
    } else {
      assert (a + b)[..|a + b| - 1] == a + b[..|b| - 1];
      RunConcat(r, a, b[..|b| - 1]);
    }
  }

  lemma {:induction false} DrawnConcat(a: seq<Step>, b: seq<Step>)
    ensures Drawn(a + b) == Drawn(a) + Drawn(b)
  {
    if b == [] {
      assert a + b == a;
    } else {
      assert (a + b)[..|a + b| - 1] == a + b[..|b| - 1];
      DrawnConcat(a, b[..|b| - 1]);
    }
  }

  /** The tokens of the call are the last ones drawn when nobody else comes between. */
  lemma {:induction false} AloneDraws(c: Call, k: nat)
    requires WellFormed(c) && k <= |c.buttons| && forall i :: 0 <= i < k ==> Passes(c, i)
    requires forall i :: 0 <= i < k ==> c.others[i] == []
    ensures Drawn(Makes(c, k)) == TokensOf(c, k)
  {
    if k > 0 {
      AloneMakes(c, k - 1);
      AloneDraws(c, k - 1);
      DrawnConcat(Makes(c, k - 1), [Row(c, k - 1)]);
      DrawnOne(Row(c, k - 1));
      TokensGrow(c, k - 1);
    }
  }

  lemma AloneMakes(c: Call, k: nat)
    requires WellFormed(c) && k < |c.buttons| && (forall i :: 0 <= i <= k ==> Passes(c, i)) && c.others[k] == []
    ensures Makes(c, k + 1) == Makes(c, k) + [Row(c, k)]
  {
  }

  lemma DrawnOne(s: Step)
    requires s.Make?
    ensures Drawn([s]) == [s.token]
  {
    assert [s][..0] == [];
  }

  /** With nobody between, the i-th of k buttons has its token live, k - 1 - i tokens later. */
  lemma {:induction false} AloneFate(history: seq<Step>, c: Call, k: nat, i: nat)
    requires WellFormed(c) && i < k <= |c.buttons| <= MAX_BUTTONS && forall j :: 0 <= j < k ==> Passes(c, j)
    requires forall j :: 0 <= j < k ==> c.others[j] == []
    requires Fresh(history + Makes(c, k))
    ensures FateOf(Row(c, i).token, history + Makes(c, k)) == Made(Row(c, i).entry, k - 1 - i)
  {
    var s := Row(c, k - 1);
    var all, before := history + Makes(c, k), history + Makes(c, k - 1);
    assert all == before + [s];
    assert all[..|all| - 1] == before;
    if i < k - 1 {
      assert Drawn(before) <= Drawn(all);
      AloneFate(history, c, k - 1, i);
      AloneApart(history, c, k, i);
    }
  }

  lemma AloneApart(history: seq<Step>, c: Call, k: nat, i: nat)
    requires WellFormed(c) && i < k - 1 < |c.buttons| && forall j :: 0 <= j < k ==> Passes(c, j)
    requires forall j :: 0 <= j < k ==> c.others[j] == []
    requires Fresh(history + Makes(c, k))
    ensures Row(c, i).token != Row(c, k - 1).token
  {
    DrawnConcat(history, Makes(c, k));
    AloneDraws(c, k);
    var drawn, n := Drawn(history + Makes(c, k)), |Drawn(history)|;
    assert drawn[n + i] == TokensOf(c, k)[i] == Row(c, i).token;
    assert drawn[n + k - 1] == TokensOf(c, k)[k - 1] == Row(c, k - 1).token;
  }

  /** A call nobody interrupts leaves every one of its buttons live. */
  lemma RegisteredAreLive(history: seq<Step>, c: Call, i: nat)
    requires WellFormed(c) && Succeeds(c) && i < |c.buttons| && forall j :: 0 <= j < |c.buttons| ==> c.others[j] == []
    requires Fresh(history + Steps(c, |c.buttons|))
    ensures var r := Run(Run(Empty(), history), Steps(c, |c.buttons|));
            Passes(c, i) && var token := c.draws[i].value;
                         && token in r.items && token in r.order && |r.order| <= 256
                         && r.items[token] == Entry(c.channel, "", c.buttons[i].text, c.buttons[i].value)
  {
    var n := |c.buttons|;
    assert Steps(c, n) == Makes(c, n);
    AloneFate(history, c, n, i);
    EachTokenForItself(history + Makes(c, n), Row(c, i).token);
    RunConcat(Empty(), history, Makes(c, n));
  }

  /** A failed call leaves none of its buttons live, whatever others did meanwhile. */
  lemma FailedLeavesNone(history: seq<Step>, c: Call, k: nat, i: nat)
    requires WellFormed(c) && Reaches(c, k) && !Succeeds(c) && |c.buttons| <= MAX_BUTTONS && i < k
    ensures Passes(c, i) && c.draws[i].value !in Run(Run(Empty(), history), Steps(c, k)).items
  {
    var steps := Steps(c, k);
    assert steps[|steps| - 1] == Drop(TokensOf(c, k));
    assert Row(c, i).token == TokensOf(c, k)[i];
  }

  lemma TokensAre(c: Call, k: nat)
    requires WellFormed(c) && k <= |c.buttons| && forall i :: 0 <= i < k ==> Passes(c, i)
    ensures |TokensOf(c, k)| == k && forall i :: 0 <= i < k ==> c.draws[i] == Some(TokensOf(c, k)[i])
  {
    forall i | 0 <= i < k ensures c.draws[i] == Some(TokensOf(c, k)[i]) {
      assert Passes(c, i);
    }
  }

  lemma TokensGrow(c: Call, k: nat)
    requires WellFormed(c) && k < |c.buttons| && forall i :: 0 <= i <= k ==> Passes(c, i)
    ensures TokensOf(c, k + 1) == TokensOf(c, k) + [Row(c, k).token]
  {
  }

  // ---- the registry ----

  class CallbackRegistry {
    var items: map<Token, Entry>
    var order: seq<Token>

    function Value(): Registry
      reads this
    {
      Registry(items, order)
    }

    constructor ()
      ensures Value() == Empty()
    {
      items, order := map[], [];
    }

    /** Enters one button under the lock. */
    method Store(token: Token, entry: Entry)
      modifies this
      ensures Value() == Next(old(Value()), Make(token, entry))
    {
      items := items[token := entry];
      order := order + [token];
      ghost var full := Value();
      while |order| > MAX_CALLBACKS
        invariant Trim(Value()) == Trim(full)
      {
        items := items - {order[0]};
        order := order[1..];
      }
    }

    method Remove(tokens: seq<Token>)
      modifies this`items
      ensures Value() == Next(old(Value()), Drop(tokens))
      ensures forall t :: t in items <==> t in old(items) && t !in tokens
      ensures forall t <- items :: items[t] == old(items)[t]
    {
      ghost var before := items;
      for i := 0 to |tokens|
        invariant items == map t | t in before && t !in tokens[..i] :: before[t]
      {
        items := items - {tokens[i]};
      }
    }

    method BindMessage(tokens: seq<Token>, message: string)
      modifies this`items
      ensures Value() == Next(old(Value()), Bind(tokens, message))
      ensures items.Keys == old(items).Keys
      ensures forall t <- items :: items[t] == if t in tokens then old(items)[t].(message := message) else old(items)[t]
    {
      ghost var before := items;
      for i := 0 to |tokens|
        invariant items == Bound(before, tokens[..i], message)
      {
        var token := tokens[i];
        if token in items {
          items := items[token := items[token].(message := message)];
        }
      }
    }

    method RemoveForMessage(channel: string, message: string)
      modifies this`items
      ensures Value() == Next(old(Value()), DropMessage(channel, message))
      ensures forall t :: t in items
                          <==> t in old(items) && (old(items)[t].channel != channel || old(items)[t].message != message)
      ensures forall t <- items :: items[t] == old(items)[t]
    {
      ghost var before := items;
      var rest: set<Token> := items.Keys;
      while rest != {}
        invariant rest <= items.Keys
        invariant items == map t | t in before && (t in rest || !before[t].On(channel, message)) :: before[t]
        decreases |rest|
      {
        var token :| token in rest;
        rest := rest - {token};
        if items[token].channel == channel && items[token].message == message {
          items := items - {token};
        }
      }
    }

    /** Gives a live token's entry to its channel, once. */
    method TakeOut(token: Token, channel: string) returns (entry: Option<Entry>)
      modifies this`items
      ensures Value() == Next(old(Value()), Consume(token, channel))
      ensures token in old(items) && old(items)[token].channel == channel ==>
                entry == Some(old(items)[token]) && items == old(items) - {token}
      ensures token !in old(items) || old(items)[token].channel != channel ==> entry == None && items == old(items)
    {
      if token !in items || items[token].channel != channel {
        return None;
      }
      entry := Some(items[token]);
      items := items - {token};
    }

    /** What other calls do while this one does not hold the lock. */
    method Interfere(steps: seq<Step>)
      modifies this
      ensures Value() == Run(old(Value()), steps)
    {
      for i := 0 to |steps|
        invariant Value() == Run(old(Value()), steps[..i])
      {
        assert steps[..i + 1][..i] == steps[..i];
        match steps[i]
        case Make(token, entry) => Store(token, entry);
        case Consume(token, channel) => var _ := TakeOut(token, channel);
        case Bind(tokens, message) => BindMessage(tokens, message);
        case Drop(tokens) => Remove(tokens);
        case DropMessage(channel, message) => RemoveForMessage(channel, message);
      }
      assert steps[..|steps|] == steps;
    }

    method Register(c: Call) returns (tokens: Option<seq<Token>>, k: nat)
      requires WellFormed(c)
      modifies this
      ensures Reaches(c, k) && Value() == Run(old(Value()), Steps(c, k))
      ensures tokens == if Succeeds(c) then Some(TokensOf(c, |c.buttons|)) else None
      ensures tokens.Some? <==> |c.buttons| <= 100 && c.encodes && forall i :: 0 <= i < |c.buttons| ==> Fine(c, i)
      ensures tokens.Some? ==>
                |tokens.value| == |c.buttons| && forall i :: 0 <= i < |c.buttons| ==>
                                                               c.draws[i] == Some(tokens.value[i])
    {
      SucceedsExactly(c);
      if |c.buttons| > MAX_BUTTONS {
        return None, 0;
      }
      var made;
      k, made := EnterWhilePassing(c);
      if k < |c.buttons| || !c.encodes {
        GiveUp(c, k, made, old(Value()));
        return None, k;
      }
      assert Steps(c, k) == Makes(c, k);
      TokensAre(c, k);
      return Some(made), k;
    }

    /** Enters button after button, up to the first that cannot be. */
    method EnterWhilePassing(c: Call) returns (k: nat, made: seq<Token>)
      requires WellFormed(c) && |c.buttons| <= MAX_BUTTONS
      modifies this
      ensures Reaches(c, k) && made == TokensOf(c, k) && Value() == Run(old(Value()), Makes(c, k))
    {
      ghost var start := Value();
      made := [];
      for i := 0 to |c.buttons|
        invariant forall j :: 0 <= j < i ==> Passes(c, j)
        invariant made == TokensOf(c, i) && Value() == Run(start, Makes(c, i))
      {
        if !Good(c.buttons[i], c.maxText) || c.draws[i].None? {
          return i, made;
        }
        Enter(c, i, start);
        TokensGrow(c, i);
        made := made + [Row(c, i).token];
      }
      k := |c.buttons|;
    }

    /** Enters the k-th button. */
    method Enter(c: Call, k: nat, ghost start: Registry)
      requires WellFormed(c) && k < |c.buttons| && forall i :: 0 <= i <= k ==> Passes(c, i)
      requires Value() == Run(start, Makes(c, k))
      modifies this
      ensures Value() == Run(start, Makes(c, k + 1))
    {
      MakesOne(c, k, start);
      Interfere(c.others[k]);
      Store(Row(c, k).token, Row(c, k).entry);
    }

    /** Takes back the first k buttons. */
    method GiveUp(c: Call, k: nat, made: seq<Token>, ghost start: Registry)
      requires WellFormed(c) && Reaches(c, k) && !Succeeds(c) && |c.buttons| <= MAX_BUTTONS
      requires made == TokensOf(c, k) && Value() == Run(start, Makes(c, k))
      modifies this
      ensures Value() == Run(start, Steps(c, k))
    {
      RunConcat(start, Makes(c, k), c.others[k] + [Drop(made)]);
      RunConcat(Run(start, Makes(c, k)), c.others[k], [Drop(made)]);
      Interfere(c.others[k]);
      Remove(made);
    }
  }

  /** One more button. */
  lemma MakesOne(c: Call, k: nat, start: Registry)
    requires WellFormed(c) && k < |c.buttons| && forall i :: 0 <= i <= k ==> Passes(c, i)
    ensures Run(start, Makes(c, k + 1))
         == Next(Run(Run(start, Makes(c, k)), c.others[k]), Row(c, k))
  {
    RunConcat(start, Makes(c, k), c.others[k]);
    var all := Makes(c, k + 1);
    assert all[..|all| - 1] == Makes(c, k) + c.others[k];
  }
}
