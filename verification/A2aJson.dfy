/**
 The gate in front of the A2A endpoint: one JSON value (sections 2 to 5 of RFC
 8259), bounded in depth and width and without repeated keys, read token by
 token from a decoder.
 */
module A2aJson {
  import opened Prelude

  const MAX_DEPTH: nat := 32
  const MAX_MEMBERS: nat := 256

  /**
   What the decoder's Token yields. `Bad` is any place where it reports an
   error: a malformed literal, a missing comma or colon, a misplaced delimiter.
   */
  datatype Token = BraceOpen | BraceClose | BracketOpen | BracketClose | Str(s: string) | Plain | Bad

  // ---- JSON values and their tokens ----

  /** Numbers, booleans and null are Plain: the gate does not look at them. */
  datatype Json = Text(s: string) | Simple | Object(members: seq<Member>) | Array(items: seq<Json>)

  datatype Member = Member(key: string, value: Json)

  function Tokens(v: Json): seq<Token> {
    match v
    case Text(s) => [Str(s)]
    case Simple => [Plain]
    case Object(members) => [BraceOpen] + MemberTokens(members) + [BraceClose]
    case Array(items) => [BracketOpen] + ItemTokens(items) + [BracketClose]
  }

  function MemberTokens(members: seq<Member>): seq<Token> {
    if members == [] then [] else [Str(members[0].key)] + Tokens(members[0].value) + MemberTokens(members[1..])
  }

  function ItemTokens(items: seq<Json>): seq<Token> {
    if items == [] then [] else Tokens(items[0]) + ItemTokens(items[1..])
  }

  predicate DistinctKeys(members: seq<Member>, seen: set<string>) {
    members == [] ||
    (members[0].key !in seen && DistinctKeys(members[1..], seen + {members[0].key}))
  }

  /** Every value within the depth bound, every container within the width bound, no key twice in one object. */
  predicate Bounded(v: Json, depth: nat) {
    depth <= MAX_DEPTH &&
    match v
    case Text(_) => true
    case Simple => true
    case Object(members) =>
      |members| <= MAX_MEMBERS && DistinctKeys(members, {}) && MembersBounded(members, depth + 1)
    case Array(items) => |items| <= MAX_MEMBERS && ItemsBounded(items, depth + 1)
  }

  predicate MembersBounded(members: seq<Member>, depth: nat) {
    members == [] || (Bounded(members[0].value, depth) && MembersBounded(members[1..], depth))
  }

  predicate ItemsBounded(items: seq<Json>, depth: nat) {
    items == [] || (Bounded(items[0], depth) && ItemsBounded(items[1..], depth))
  }

  // ---- the bounds, measured on the value ----

  function Max(a: nat, b: nat): nat {
    if a < b then b else a
  }

  /** How deep the deepest value lies below this one. */
  function Height(v: Json): nat {
    match v
    case Object(members) => MembersHeight(members)
    case Array(items) => ItemsHeight(items)
    case _ => 0
  }

  function MembersHeight(members: seq<Member>): nat {
    if members == [] then 0 else Max(1 + Height(members[0].value), MembersHeight(members[1..]))
  }

  function ItemsHeight(items: seq<Json>): nat {
    if items == [] then 0 else Max(1 + Height(items[0]), ItemsHeight(items[1..]))
  }

  /** The most members or items that any container in the value has. */
  function Width(v: Json): nat {
    match v
    case Object(members) => Max(|members|, MembersWidth(members))
    case Array(items) => Max(|items|, ItemsWidth(items))
    case _ => 0
  }

  function MembersWidth(members: seq<Member>): nat {
    if members == [] then 0 else Max(Width(members[0].value), MembersWidth(members[1..]))
  }

  function ItemsWidth(items: seq<Json>): nat {
    if items == [] then 0 else Max(Width(items[0]), ItemsWidth(items[1..]))
  }

  /** No object in the value has two members of the same key. */
  predicate UniqueKeys(v: Json) {
    match v
    case Object(members) =>
      (forall i, j :: 0 <= i < j < |members| ==> members[i].key != members[j].key)
      && MembersUnique(members)
    case Array(items) => ItemsUnique(items)
    case _ => true
  }

  predicate MembersUnique(members: seq<Member>) {
    members == [] || (UniqueKeys(members[0].value) && MembersUnique(members[1..]))
  }

  predicate ItemsUnique(items: seq<Json>) {
    items == [] || (UniqueKeys(items[0]) && ItemsUnique(items[1..]))
  }

  lemma {:induction false} DistinctExactly(members: seq<Member>, seen: set<string>)
    ensures DistinctKeys(members, seen) <==> AllDiffer(members, seen)
  {
    if members != [] {
      DistinctExactly(members[1..], seen + {members[0].key});
      ConsDistinct(members, seen);
    }
  }

  /** No key is among those seen, and none is repeated. */
  ghost predicate AllDiffer(members: seq<Member>, seen: set<string>) {
    && (forall i :: 0 <= i < |members| ==> members[i].key !in seen)
    && forall i, j :: 0 <= i < j < |members| ==> members[i].key != members[j].key
  }

  lemma ConsDistinct(members: seq<Member>, seen: set<string>)
    requires members != []
    ensures AllDiffer(members, seen) <==> members[0].key !in seen && AllDiffer(members[1..], seen + {members[0].key})
  {
    var first, rest := members[0], members[1..];
    forall i | 0 < i < |members| ensures members[i] == rest[i - 1] {}
    if first.key !in seen && AllDiffer(rest, seen + {first.key}) {
      forall i | 0 <= i < |members| ensures members[i].key !in seen {
        if i > 0 {
          assert rest[i - 1].key !in seen + {first.key};
        }
      }
      forall i, j | 0 <= i < j < |members| ensures members[i].key != members[j].key {
        assert rest[j - 1].key !in seen + {first.key};
        if i > 0 {
          assert rest[i - 1].key != rest[j - 1].key;
        }
      }
    }
    if AllDiffer(members, seen) {
      forall i | 0 <= i < |rest| ensures rest[i].key !in seen + {first.key} {
        assert members[i + 1].key !in seen && members[0].key != members[i + 1].key;
      }
      forall i, j | 0 <= i < j < |rest| ensures rest[i].key != rest[j].key {
        assert members[i + 1].key != members[j + 1].key;
      }
    }
  }

  /** The bounds of the gate are depth 32, width 256 and keys that are not repeated. */
  lemma {:induction false} BoundedExactly(v: Json, depth: nat)
    ensures Bounded(v, depth) <==> depth + Height(v) <= 32 && Width(v) <= 256 && UniqueKeys(v)
    decreases v, 1
  {
    match v
    case Text(_) =>
    case Simple =>
    case Object(members) =>
      MembersExactly(members, depth + 1);
      DistinctExactly(members, {});
      assert Height(v) == MembersHeight(members) && Width(v) == Max(|members|, MembersWidth(members));
      assert members == [] ==> MembersHeight(members) == 0;
    case Array(items) =>
      ItemsExactly(items, depth + 1);
      assert Height(v) == ItemsHeight(items) && Width(v) == Max(|items|, ItemsWidth(items));
      assert items == [] ==> ItemsHeight(items) == 0;
  }

  lemma {:induction false} MembersExactly(members: seq<Member>, depth: nat)
    requires depth > 0
    ensures MembersBounded(members, depth)
       <==> && (members == [] || depth - 1 + MembersHeight(members) <= 32) && MembersWidth(members) <= 256
            && MembersUnique(members)
    decreases members, 0
  {
    if members != [] {
      BoundedExactly(members[0].value, depth);
      MembersExactly(members[1..], depth);
      var first, rest := members[0].value, members[1..];
      assert MembersHeight(members) == Max(1 + Height(first), MembersHeight(rest));
      assert MembersWidth(members) == Max(Width(first), MembersWidth(rest));
      assert MembersUnique(members) <==> UniqueKeys(first) && MembersUnique(rest);
      assert MembersBounded(members, depth) <==> Bounded(first, depth) && MembersBounded(rest, depth);
      assert rest == [] ==> MembersHeight(rest) == 0;
    }
  }

  lemma {:induction false} ItemsExactly(items: seq<Json>, depth: nat)
    requires depth > 0
    ensures ItemsBounded(items, depth)
       <==> && (items == [] || depth - 1 + ItemsHeight(items) <= 32) && ItemsWidth(items) <= 256
            && ItemsUnique(items)
    decreases items, 0
  {
    if items != [] {
      BoundedExactly(items[0], depth);
      ItemsExactly(items[1..], depth);
      var first, rest := items[0], items[1..];
      assert ItemsHeight(items) == Max(1 + Height(first), ItemsHeight(rest));
      assert ItemsWidth(items) == Max(Width(first), ItemsWidth(rest));
      assert ItemsUnique(items) <==> UniqueKeys(first) && ItemsUnique(rest);
      assert ItemsBounded(items, depth) <==> Bounded(first, depth) && ItemsBounded(rest, depth);
      assert rest == [] ==> ItemsHeight(rest) == 0;
    }
  }

  lemma AllBoundedExactly()
    ensures forall v :: Bounded(v, 0) <==> Height(v) <= 32 && Width(v) <= 256 && UniqueKeys(v)
  {
    forall v ensures Bounded(v, 0) <==> Height(v) <= 32 && Width(v) <= 256 && UniqueKeys(v) {
      BoundedExactly(v, 0);
    }
  }

  // ---- reading one value ----

  /** Whether the decoder sees another element before the container's end. */
  predicate More(ts: seq<Token>) {
    ts != [] && ts[0] != BraceClose && ts[0] != BracketClose
  }

  function ReadValue(ts: seq<Token>, depth: nat): (r: Option<(Json, seq<Token>)>)
    ensures r.Some? ==> |r.value.1| < |ts|
    decreases |ts|, 1
  {
    if depth > MAX_DEPTH || ts == [] then None
    else match ts[0]
         case Str(s) => Some((Text(s), ts[1..]))
         case Plain => Some((Simple, ts[1..]))
         case BraceOpen =>
           var r := ReadMembers(ts[1..], depth, {}, 0);
           if r == None then None else Some((Object(r.value.0), r.value.1))
         case BracketOpen =>
           var r := ReadItems(ts[1..], depth, 0);
           if r == None then None else Some((Array(r.value.0), r.value.1))
         case _ => None
  }

  function ReadMembers(ts: seq<Token>, depth: nat, seen: set<string>,
                       count: nat): (r: Option<(seq<Member>, seq<Token>)>)
    ensures r.Some? ==> |r.value.1| < |ts|
    decreases |ts|, 0
  {
    if !More(ts) then
      if ts != [] && ts[0] == BraceClose then Some(([], ts[1..])) else None
    else if !ts[0].Str? || ts[0].s in seen || count + 1 > MAX_MEMBERS then None
    else
      var value := ReadValue(ts[1..], depth + 1);
      if value == None then None
      else
        var rest := ReadMembers(value.value.1, depth, seen + {ts[0].s}, count + 1);
        if rest == None then None
        else Some(([Member(ts[0].s, value.value.0)] + rest.value.0, rest.value.1))
  }

  function ReadItems(ts: seq<Token>, depth: nat, count: nat): (r: Option<(seq<Json>, seq<Token>)>)
    ensures r.Some? ==> |r.value.1| < |ts|
    decreases |ts|, 2
  {
    if !More(ts) then
      if ts != [] && ts[0] == BracketClose then Some(([], ts[1..])) else None
    else if count + 1 > MAX_MEMBERS then None
    else
      var value := ReadValue(ts, depth + 1);
      if value == None then None
      else
        var rest := ReadItems(value.value.1, depth, count + 1);
        if rest == None then None
        else Some(([value.value.0] + rest.value.0, rest.value.1))
  }

  /** Reading members is reading one, and then the others. */
  lemma MemberByMember(ts: seq<Token>, depth: nat, seen: set<string>, count: nat)
    requires More(ts)
    ensures var whole := ReadMembers(ts, depth, seen, count);
            if !ts[0].Str? || ts[0].s in seen || count + 1 > MAX_MEMBERS ||
               ReadValue(ts[1..], depth + 1) == None then whole == None
            else
              var rest := ReadMembers(ReadValue(ts[1..], depth + 1).value.1, depth, seen + {ts[0].s}, count + 1);
              whole.Some? == rest.Some? && (whole.Some? ==> whole.value.1 == rest.value.1)
  {
  }

  // ---- the decoder and the recursive check ----

  class Decoder {
    const tokens: seq<Token>
    var pos: nat

    ghost predicate Valid()
      reads this
    {
      pos <= |tokens|
    }

    ghost function Ahead(): seq<Token>
      reads this
      requires Valid()
    {
      tokens[pos..]
    }

    constructor (tokens: seq<Token>)
      ensures Valid() && this.tokens == tokens && Ahead() == tokens
    {
      this.tokens, pos := tokens, 0;
    }

    /** The next token; None at the end of input. */
    method Next() returns (t: Option<Token>)
      requires Valid()
      modifies this`pos
      ensures Valid()
      ensures old(Ahead()) == [] ==> t == None && pos == old(pos)
      ensures old(Ahead()) != [] ==> t == Some(old(Ahead())[0]) && Ahead() == old(Ahead())[1..]
    {
      if pos == |tokens| {
        return None;
      }
      t := Some(tokens[pos]);
      pos := pos + 1;
    }

    method HasMore() returns (more: bool)
      requires Valid()
      ensures more == More(Ahead())
    {
      more := pos < |tokens| && tokens[pos] != BraceClose && tokens[pos] != BracketClose;
    }

    method ValidateValue(depth: nat) returns (ok: bool)
      requires Valid()
      modifies this`pos
      ensures Valid()
      ensures ok <==> ReadValue(old(Ahead()), depth).Some?
      ensures ok ==> Ahead() == ReadValue(old(Ahead()), depth).value.1
      decreases |tokens| - pos, 1
    {
      if depth > MAX_DEPTH {
        return false;
      }
      var token := Next();
      if token == None {
        return false;
      }
      match token.value {
        case Str(_) => return true;
        case Plain => return true;
        case BraceOpen => ok := ValidateMembers(depth);
        case BracketOpen => ok := ValidateItems(depth);
        case _ => return false;
      }
    }

    method ValidateMembers(depth: nat) returns (ok: bool)
      requires Valid()
      modifies this`pos
      ensures Valid()
      ensures ok <==> ReadMembers(old(Ahead()), depth, {}, 0).Some?
      ensures ok ==> Ahead() == ReadMembers(old(Ahead()), depth, {}, 0).value.1
      decreases |tokens| - pos, 0
    {
      ghost var whole := ReadMembers(Ahead(), depth, {}, 0);
      var seen: set<string>, count := {}, 0;
      var more := HasMore();
      while more
        invariant Valid() && pos >= old(pos) && more == More(Ahead())
        invariant whole.Some? == ReadMembers(Ahead(), depth, seen, count).Some?
        invariant whole.Some? ==> whole.value.1 == ReadMembers(Ahead(), depth, seen, count).value.1
        decreases |tokens| - pos
      {
        ghost var ts := Ahead();
        MemberByMember(ts, depth, seen, count);
        var keyToken := Next();
        if keyToken == None || !keyToken.value.Str? {
          return false;
        }
        var key := keyToken.value.s;
        if key in seen {
          return false;
        }
        seen := seen + {key};
        count := count + 1;
        if count > MAX_MEMBERS {
          return false;
        }
        ok := ValidateValue(depth + 1);
        if !ok {
          return false;
        }
        more := HasMore();
      }
      var end := Next();
      return end == Some(BraceClose);
    }

    method ValidateItems(depth: nat) returns (ok: bool)
      requires Valid()
      modifies this`pos
      ensures Valid()
      ensures ok <==> ReadItems(old(Ahead()), depth, 0).Some?
      ensures ok ==> Ahead() == ReadItems(old(Ahead()), depth, 0).value.1
      decreases |tokens| - pos, 2
    {
      ghost var whole := ReadItems(Ahead(), depth, 0);
      var count := 0;
      var more := HasMore();
      while more
        invariant Valid() && pos >= old(pos) && more == More(Ahead())
        invariant whole.Some? == ReadItems(Ahead(), depth, count).Some?
        invariant whole.Some? ==> whole.value.1 == ReadItems(Ahead(), depth, count).value.1
        decreases |tokens| - pos
      {
        count := count + 1;
        if count > MAX_MEMBERS {
          return false;
        }
        ok := ValidateValue(depth + 1);
        if !ok {
          return false;
        }
        more := HasMore();
      }
      var end := Next();
      return end == Some(BracketClose);
    }
  }

  /** The whole check; None stands for an empty body or one that is not UTF-8. */
  method ValidateA2aJson(body: Option<seq<Token>>) returns (ok: bool)
    ensures ok <==> body.Some? && exists v :: body.value == Tokens(v) && Bounded(v, 0)
    ensures ok <==> body.Some? && exists v :: body.value == Tokens(v) && Height(v) <= 32 && Width(v) <= 256 &&
                                              UniqueKeys(v)
  {
    AllBoundedExactly();
    if body == None {
      return false;
    }
    var decoder := new Decoder(body.value);
    ok := decoder.ValidateValue(0);
    AcceptedExactly(body.value);
    if !ok {
      return false;
    }
    var extra := decoder.Next();
    return extra == None;
  }

  // ---- reading is exactly the inverse of writing out a bounded value ----

  lemma {:induction false} ReadIsSound(ts: seq<Token>, depth: nat)
    requires ReadValue(ts, depth).Some?
    ensures var (v, rest) := ReadValue(ts, depth).value; ts == Tokens(v) + rest && Bounded(v, depth)
    decreases |ts|, 1
  {
    match ts[0]
    case BraceOpen => MembersAreSound(ts[1..], depth, {}, 0);
    case BracketOpen => ItemsAreSound(ts[1..], depth, 0);
    case _ =>
  }

  lemma {:induction false} MembersAreSound(ts: seq<Token>, depth: nat, seen: set<string>, count: nat)
    requires ReadMembers(ts, depth, seen, count).Some? && depth <= MAX_DEPTH && count <= MAX_MEMBERS
    ensures var (members, rest) := ReadMembers(ts, depth, seen, count).value;
            && ts == MemberTokens(members) + [BraceClose] + rest
            && count + |members| <= MAX_MEMBERS && DistinctKeys(members, seen)
            && MembersBounded(members, depth + 1)
    decreases |ts|, 0
  {
    if More(ts) {
      ReadIsSound(ts[1..], depth + 1);
      MembersAreSound(ReadValue(ts[1..], depth + 1).value.1, depth, seen + {ts[0].s}, count + 1);
    }
  }

  lemma {:induction false} ItemsAreSound(ts: seq<Token>, depth: nat, count: nat)
    requires ReadItems(ts, depth, count).Some? && depth <= MAX_DEPTH && count <= MAX_MEMBERS
    ensures var (items, rest) := ReadItems(ts, depth, count).value;
            && ts == ItemTokens(items) + [BracketClose] + rest
            && count + |items| <= MAX_MEMBERS
            && ItemsBounded(items, depth + 1)
    decreases |ts|, 2
  {
    if More(ts) {
      ReadIsSound(ts, depth + 1);
      ItemsAreSound(ReadValue(ts, depth + 1).value.1, depth, count + 1);
    }
  }

  /** A bounded value is read back whole, and nothing after it is touched. */
  lemma {:induction false} ReadIsComplete(v: Json, depth: nat, rest: seq<Token>)
    requires Bounded(v, depth)
    ensures ReadValue(Tokens(v) + rest, depth) == Some((v, rest))
    decreases v, 1
  {
    var ts := Tokens(v) + rest;
    match v
    case Text(s) => assert ts[0] == Str(s) && ts[1..] == rest;
    case Simple => assert ts[0] == Plain && ts[1..] == rest;
    case Object(members) =>
      assert ts[0] == BraceOpen && ts[1..] == MemberTokens(members) + [BraceClose] + rest;
      MembersAreComplete(members, depth, {}, 0, rest);
    case Array(items) =>
      assert ts[0] == BracketOpen && ts[1..] == ItemTokens(items) + [BracketClose] + rest;
      ItemsAreComplete(items, depth, 0, rest);
  }

  lemma {:induction false} MembersAreComplete(members: seq<Member>, depth: nat, seen: set<string>, count: nat,
                                              rest: seq<Token>)
    requires DistinctKeys(members, seen) && count + |members| <= MAX_MEMBERS
    requires MembersBounded(members, depth + 1)
    ensures ReadMembers(MemberTokens(members) + [BraceClose] + rest, depth, seen, count) == Some((members, rest))
    decreases members, 0
  {
    var ts := MemberTokens(members) + [BraceClose] + rest;
    if members != [] {
      var after := MemberTokens(members[1..]) + [BraceClose] + rest;
      ReadIsComplete(members[0].value, depth + 1, after);
      assert ts[1..] == Tokens(members[0].value) + after;
      MembersAreComplete(members[1..], depth, seen + {members[0].key}, count + 1, rest);
      assert members == [Member(members[0].key, members[0].value)] + members[1..];
    } else {
      assert ts[1..] == rest;
    }
  }

  lemma {:induction false} ItemsAreComplete(items: seq<Json>, depth: nat, count: nat, rest: seq<Token>)
    requires count + |items| <= MAX_MEMBERS
    requires ItemsBounded(items, depth + 1)
    ensures ReadItems(ItemTokens(items) + [BracketClose] + rest, depth, count) == Some((items, rest))
    decreases items, 0
  {
    var ts := ItemTokens(items) + [BracketClose] + rest;
    if items != [] {
      var after := ItemTokens(items[1..]) + [BracketClose] + rest;
      ReadIsComplete(items[0], depth + 1, after);
      assert ts == Tokens(items[0]) + after;
      StartsValue(items[0]);
      ItemsAreComplete(items[1..], depth, count + 1, rest);
      assert items == [items[0]] + items[1..];
    } else {
      assert ts[1..] == rest;
    }
  }

  lemma StartsValue(v: Json)
    ensures More(Tokens(v))
  {
  }

  /** One value and nothing else is read exactly when the tokens are those of a bounded value. */
  lemma AcceptedExactly(ts: seq<Token>)
    ensures (ReadValue(ts, 0).Some? && ReadValue(ts, 0).value.1 == []) <==> exists v :: ts == Tokens(v) && Bounded(v, 0)
  {
    if ReadValue(ts, 0).Some? {
      ReadIsSound(ts, 0);
    }
    if v :| ts == Tokens(v) && Bounded(v, 0) {
      ReadIsComplete(v, 0, []);
      assert Tokens(v) + [] == ts;
    }
  }

  /** A token stream spells at most one bounded value. */
  lemma SpellingIsUnique(v: Json, u: Json, depth: nat)
    requires Bounded(v, depth) && Bounded(u, depth) && Tokens(v) <= Tokens(u)
    ensures v == u
  {
    ReadIsComplete(v, depth, Tokens(u)[|Tokens(v)|..]);
    ReadIsComplete(u, depth, []);
    assert Tokens(u) == Tokens(v) + Tokens(u)[|Tokens(v)|..] == Tokens(u) + [];
  }
}
