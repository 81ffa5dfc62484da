/** The duplicate-field check of internal/model/json_document.go:13-64, run on the token
    stream that the decoder delivers. */
module JsonDocument {
  import opened Options

  /** `Bad` is a syntax error reported by the decoder at that place. */
  datatype Token = OpenObject | CloseObject | OpenArray | CloseArray | Text(text: string) | Other | Bad

  datatype Json = String(text: string) | Plain | Array(items: Items) | Object(fields: Fields)

  datatype Items = NoItems | Item(head: Json, tail: Items)

  datatype Fields = NoFields | Field(name: string, value: Json, rest: Fields)

  const MAX_DEPTH := 64

  // ------------------------------------------------------------ specification

  function Tokens(t: Json): (r: seq<Token>)
    ensures r != []
  {
    match t
    case String(s) => [Text(s)]
    case Plain => [Other]
    case Array(items) => [OpenArray] + ItemTokens(items) + [CloseArray]
    case Object(fields) => [OpenObject] + FieldTokens(fields) + [CloseObject]
  }

  function ItemTokens(items: Items): seq<Token> {
    match items
    case NoItems => []
    case Item(head, tail) => Tokens(head) + ItemTokens(tail)
  }

  function FieldTokens(fields: Fields): seq<Token> {
    match fields
    case NoFields => []
    case Field(name, value, rest) => [Text(name)] + Tokens(value) + FieldTokens(rest)
  }

  function Names(fields: Fields): set<string> {
    match fields
    case NoFields => {}
    case Field(name, _, rest) => {name} + Names(rest)
  }

  /** No object, at any level, has two fields of the same name. */
  predicate UniqueNames(t: Json) {
    match t
    case String(_) => true
    case Plain => true
    case Array(items) => UniqueItems(items)
    case Object(fields) => UniqueFields(fields)
  }

  predicate UniqueItems(items: Items) {
    items.Item? ==> UniqueNames(items.head) && UniqueItems(items.tail)
  }

  predicate UniqueFields(fields: Fields) {
    fields.Field? ==> fields.name !in Names(fields.rest) && UniqueNames(fields.value) && UniqueFields(fields.rest)
  }

  function Max(a: nat, b: nat): nat {
    if a < b then b else a
  }

  /** How many levels lie below the value. */
  function Height(t: Json): nat {
    match t
    case String(_) => 0
    case Plain => 0
    case Array(items) => ItemsHeight(items)
    case Object(fields) => FieldsHeight(fields)
  }

  function ItemsHeight(items: Items): nat {
    match items
    case NoItems => 0
    case Item(head, tail) => Max(1 + Height(head), ItemsHeight(tail))
  }

  function FieldsHeight(fields: Fields): nat {
    match fields
    case NoFields => 0
    case Field(_, value, rest) => Max(1 + Height(value), FieldsHeight(rest))
  }

  predicate Good(t: Json, depth: nat) {
    UniqueNames(t) && depth + Height(t) <= MAX_DEPTH
  }

  predicate GoodItems(items: Items, depth: nat) {
    UniqueItems(items) && depth + ItemsHeight(items) <= MAX_DEPTH
  }

  predicate GoodFields(fields: Fields, depth: nat) {
    UniqueFields(fields) && depth + FieldsHeight(fields) <= MAX_DEPTH
  }

  ghost predicate At(tokens: seq<Token>, pos: nat, word: seq<Token>) {
    pos + |word| <= |tokens| && tokens[pos..pos + |word|] == word
  }

  lemma AtSplit(tokens: seq<Token>, pos: nat, a: seq<Token>, b: seq<Token>)
    ensures At(tokens, pos, a + b) <==> At(tokens, pos, a) && At(tokens, pos + |a|, b)
  {
    if At(tokens, pos, a + b) {
      assert tokens[pos..pos + |a|] == tokens[pos..pos + |a + b|][..|a|] == a;
      assert tokens[pos + |a|..pos + |a| + |b|] == tokens[pos..pos + |a + b|][|a|..] == b;
    }
    if At(tokens, pos, a) && At(tokens, pos + |a|, b) {
      assert tokens[pos..pos + |a + b|] == tokens[pos..pos + |a|] + tokens[pos + |a|..pos + |a| + |b|];
    }
  }

  lemma AtOne(tokens: seq<Token>, pos: nat, x: Token)
    ensures At(tokens, pos, [x]) <==> pos < |tokens| && tokens[pos] == x
  {
  }

  // ------------------------------------------------------- lists built at the end

  function SnocItem(items: Items, t: Json): Items {
    match items
    case NoItems => Item(t, NoItems)
    case Item(head, tail) => Item(head, SnocItem(tail, t))
  }

  function SnocField(fields: Fields, name: string, t: Json): Fields {
    match fields
    case NoFields => Field(name, t, NoFields)
    case Field(n, v, rest) => Field(n, v, SnocField(rest, name, t))
  }

  lemma {:induction false} SnocItemMeans(items: Items, t: Json)
    ensures ItemTokens(SnocItem(items, t)) == ItemTokens(items) + Tokens(t)
    ensures UniqueItems(SnocItem(items, t)) <==> UniqueItems(items) && UniqueNames(t)
    ensures ItemsHeight(SnocItem(items, t)) == Max(ItemsHeight(items), 1 + Height(t))
  {
    hide Tokens, UniqueNames, Height;
    if items.Item? {
      SnocItemMeans(items.tail, t);
      Regroup(Tokens(items.head), ItemTokens(items.tail), Tokens(t));
    }
  }

  lemma {:induction false} SnocFieldMeans(fields: Fields, name: string, t: Json)
    ensures FieldTokens(SnocField(fields, name, t)) == FieldTokens(fields) + ([Text(name)] + Tokens(t))
    ensures Names(SnocField(fields, name, t)) == Names(fields) + {name}
    ensures UniqueFields(SnocField(fields, name, t)) <==> UniqueFields(fields) && name !in Names(fields) && UniqueNames(t)
    ensures FieldsHeight(SnocField(fields, name, t)) == Max(FieldsHeight(fields), 1 + Height(t))
  {
    if fields.Field? {
      SnocFieldMeans(fields.rest, name, t);
    }
  }

  // ----------------------------------------------------------------- the check

  /** decoder.More: the next token is there and does not close anything. */
  predicate More(tokens: seq<Token>, pos: nat) {
    pos < |tokens| && tokens[pos] != CloseObject && tokens[pos] != CloseArray
  }

  /** The recursive closure at lines 17-54. `hint` is the tree the stream is known to
      start with, if any; `tree` is the one the check has found when it accepts. */
  method Value(tokens: seq<Token>, pos: nat, depth: nat, ghost hint: Option<Json>) returns (ok: bool, next: nat, ghost tree: Json)
    requires pos <= |tokens|
    requires hint.Some? ==> At(tokens, pos, Tokens(hint.value))
    ensures ok ==> pos < next <= |tokens| && At(tokens, pos, Tokens(tree)) && next == pos + |Tokens(tree)| && Good(tree, depth)
    ensures hint.Some? ==> (ok <==> Good(hint.value, depth)) && (ok ==> tree == hint.value)
    decreases |tokens| - pos, 1
  {
    hide *;
    tree, next := Plain, pos;
    if depth > MAX_DEPTH {
      TooDeep(depth);
      return false, next, tree;
    }
    HintStarts(tokens, pos, hint);
    if pos == |tokens| || tokens[pos] == Bad {
      return false, next, tree;
    }
    match tokens[pos]
    case OpenObject =>
      ghost var fields;
      ok, next, fields := FieldsOf(tokens, pos + 1, depth, if hint.Some? then Some(hint.value.fields) else None);
      tree := Object(fields);
      GoodInside(tree, depth);
      if ok {
        ok := next < |tokens| && tokens[next] == CloseObject;
        ObjectEnds(tokens, pos, fields);
        next := next + 1;
      }
      if hint.Some? {
        GoodInside(hint.value, depth);
      }
    case OpenArray =>
      ghost var items;
      ok, next, items := ItemsOf(tokens, pos + 1, depth, if hint.Some? then Some(hint.value.items) else None);
      tree := Array(items);
      GoodInside(tree, depth);
      if ok {
        ok := next < |tokens| && tokens[next] == CloseArray;
        ArrayEnds(tokens, pos, items);
        next := next + 1;
      }
      if hint.Some? {
        GoodInside(hint.value, depth);
      }
    case CloseObject =>
      ok := false;
    case CloseArray =>
      ok := false;
    case Text(s) =>
      tree, ok, next := String(s), true, pos + 1;
      LeafEnds(tokens, pos, tree, depth);
    case Other =>
      ok, next := true, pos + 1;
      LeafEnds(tokens, pos, tree, depth);
  }

  lemma TooDeep(depth: nat)
    requires depth > MAX_DEPTH
    ensures forall t :: !Good(t, depth)
  {
  }

  lemma GoodInside(t: Json, depth: nat)
    ensures t.Object? ==> (Good(t, depth) <==> GoodFields(t.fields, depth))
    ensures t.Array? ==> (Good(t, depth) <==> GoodItems(t.items, depth))
  {
  }

  lemma ObjectEnds(tokens: seq<Token>, pos: nat, fields: Fields)
    requires pos < |tokens| && tokens[pos] == OpenObject && At(tokens, pos + 1, FieldTokens(fields))
    ensures |Tokens(Object(fields))| == |FieldTokens(fields)| + 2
    ensures var end := pos + 1 + |FieldTokens(fields)|;
            end < |tokens| && tokens[end] == CloseObject ==> At(tokens, pos, Tokens(Object(fields)))
  {
    AtSplit(tokens, pos, [OpenObject] + FieldTokens(fields), [CloseObject]);
    AtSplit(tokens, pos, [OpenObject], FieldTokens(fields));
    AtOne(tokens, pos, OpenObject);
  }

  lemma ArrayEnds(tokens: seq<Token>, pos: nat, items: Items)
    requires pos < |tokens| && tokens[pos] == OpenArray && At(tokens, pos + 1, ItemTokens(items))
    ensures |Tokens(Array(items))| == |ItemTokens(items)| + 2
    ensures var end := pos + 1 + |ItemTokens(items)|;
            end < |tokens| && tokens[end] == CloseArray ==> At(tokens, pos, Tokens(Array(items)))
  {
    AtSplit(tokens, pos, [OpenArray] + ItemTokens(items), [CloseArray]);
    AtSplit(tokens, pos, [OpenArray], ItemTokens(items));
    AtOne(tokens, pos, OpenArray);
  }

  lemma LeafEnds(tokens: seq<Token>, pos: nat, t: Json, depth: nat)
    requires pos < |tokens| && depth <= MAX_DEPTH && (t.String? || t.Plain?)
    requires tokens[pos] == if t.String? then Text(t.text) else Other
    ensures At(tokens, pos, Tokens(t)) && |Tokens(t)| == 1 && Good(t, depth)
  {
  }

  function FirstToken(t: Json): Token {
    match t
    case String(s) => Text(s)
    case Plain => Other
    case Array(_) => OpenArray
    case Object(_) => OpenObject
  }

  /** The first token tells which kind of tree follows, and what lies inside. */
  lemma HintStarts(tokens: seq<Token>, pos: nat, hint: Option<Json>)
    requires hint.Some? ==> At(tokens, pos, Tokens(hint.value))
    ensures hint.Some? ==> pos < |tokens| && tokens[pos] == FirstToken(hint.value)
    ensures hint.Some? ==> (hint.value.Array? <==> tokens[pos] == OpenArray) && (hint.value.Object? <==> tokens[pos] == OpenObject)
    ensures hint.Some? ==> (tokens[pos] == Other <==> hint.value == Plain) && (tokens[pos].Text? <==> hint.value.String?)
    ensures hint.Some? && tokens[pos].Text? ==> hint.value == String(tokens[pos].text)
    ensures hint.Some? ==> More(tokens, pos) && tokens[pos] != Bad
    ensures hint.Some? && hint.value.Array? ==> At(tokens, pos + 1, ItemTokens(hint.value.items) + [CloseArray])
    ensures hint.Some? && hint.value.Object? ==> At(tokens, pos + 1, FieldTokens(hint.value.fields) + [CloseObject])
  {
    if hint.Some? {
      match hint.value
      case String(s) => AtOne(tokens, pos, Text(s));
      case Plain => AtOne(tokens, pos, Other);
      case Array(items) =>
        assert Tokens(hint.value) == [OpenArray] + (ItemTokens(items) + [CloseArray]);
        AtSplit(tokens, pos, [OpenArray], ItemTokens(items) + [CloseArray]);
        AtOne(tokens, pos, OpenArray);
      case Object(fields) =>
        assert Tokens(hint.value) == [OpenObject] + (FieldTokens(fields) + [CloseObject]);
        AtSplit(tokens, pos, [OpenObject], FieldTokens(fields) + [CloseObject]);
        AtOne(tokens, pos, OpenObject);
    }
  }

  /** What is known to follow inside an array: an item and the rest, or the end. */
  lemma ItemsHint(tokens: seq<Token>, pos: nat, items: Items)
    requires At(tokens, pos, ItemTokens(items) + [CloseArray])
    ensures items.NoItems? ==> pos < |tokens| && tokens[pos] == CloseArray
    ensures items.Item? ==>
              && At(tokens, pos, Tokens(items.head))
              && At(tokens, pos + |Tokens(items.head)|, ItemTokens(items.tail) + [CloseArray])
              && More(tokens, pos)
  {
    if items.NoItems? {
      AtOne(tokens, pos, CloseArray);
      assert ItemTokens(items) + [CloseArray] == [CloseArray];
    } else {
      assert ItemTokens(items) + [CloseArray] == Tokens(items.head) + (ItemTokens(items.tail) + [CloseArray]);
      AtSplit(tokens, pos, Tokens(items.head), ItemTokens(items.tail) + [CloseArray]);
      HintStarts(tokens, pos, Some(items.head));
    }
  }

  /** The loop over array elements, lines 42-46. */
  method ItemsOf(tokens: seq<Token>, pos: nat, depth: nat, ghost hint: Option<Items>) returns (ok: bool, next: nat, ghost items: Items)
    requires pos <= |tokens| && depth <= MAX_DEPTH
    requires hint.Some? ==> At(tokens, pos, ItemTokens(hint.value) + [CloseArray])
    ensures ok ==> pos <= next <= |tokens| && At(tokens, pos, ItemTokens(items)) && next == pos + |ItemTokens(items)| && GoodItems(items, depth)
    ensures hint.Some? ==> (ok <==> GoodItems(hint.value, depth))
    ensures hint.Some? && ok ==> items == hint.value && next < |tokens| && tokens[next] == CloseArray
    decreases |tokens| - pos, 2
  {
    hide Tokens, UniqueNames, Height;
    items, next := NoItems, pos;
    ghost var left := hint;
    while More(tokens, next)
      invariant pos <= next <= |tokens|
      invariant At(tokens, pos, ItemTokens(items)) && next == pos + |ItemTokens(items)| && GoodItems(items, depth)
      invariant hint.Some? <==> left.Some?
      invariant hint.Some? ==> At(tokens, next, ItemTokens(left.value) + [CloseArray]) && AppendItems(items, left.value) == hint.value
      decreases |tokens| - next
    {
      hide ItemTokens, UniqueItems, ItemsHeight, AppendItems;
      if left.Some? {
        ItemsHint(tokens, next, left.value);
        AppendStep(items, left.value, depth);
      }
      var good, after;
      ghost var tree;
      good, after, tree := Value(tokens, next, depth + 1, if left.Some? then Some(left.value.head) else None);
      if !good {
        return false, next, items;
      }
      SnocItemMeans(items, tree);
      GoodSnoc(items, tree, depth);
      AtSplit(tokens, pos, ItemTokens(items), Tokens(tree));
      items, next := SnocItem(items, tree), after;
      left := if left.Some? then Some(left.value.tail) else None;
    }
    if left.Some? {
      ItemsHint(tokens, next, left.value);
      AppendNone(items);
    }
    ok := true;
  }

  function AppendItems(items: Items, more: Items): Items {
    match items
    case NoItems => more
    case Item(head, tail) => Item(head, AppendItems(tail, more))
  }

  lemma {:induction false} AppendNone(items: Items)
    ensures AppendItems(items, NoItems) == items
  {
    if items.Item? {
      AppendNone(items.tail);
    }
  }

  lemma {:induction false} AppendStep(items: Items, more: Items, depth: nat)
    requires more.Item?
    ensures AppendItems(SnocItem(items, more.head), more.tail) == AppendItems(items, more)
    ensures !Good(more.head, depth + 1) ==> !GoodItems(AppendItems(items, more), depth)
  {
    if items.Item? {
      AppendStep(items.tail, more, depth);
    }
  }

  lemma GoodSnoc(items: Items, t: Json, depth: nat)
    requires GoodItems(items, depth) && Good(t, depth + 1)
    ensures GoodItems(SnocItem(items, t), depth)
  {
    SnocItemMeans(items, t);
  }

  lemma FieldsHint(tokens: seq<Token>, pos: nat, fields: Fields)
    requires At(tokens, pos, FieldTokens(fields) + [CloseObject])
    ensures fields.NoFields? ==> pos < |tokens| && tokens[pos] == CloseObject
    ensures fields.Field? ==>
              && More(tokens, pos) && tokens[pos] == Text(fields.name)
              && At(tokens, pos + 1, Tokens(fields.value))
              && At(tokens, pos + 1 + |Tokens(fields.value)|, FieldTokens(fields.rest) + [CloseObject])
  {
    if fields.NoFields? {
      AtOne(tokens, pos, CloseObject);
      assert FieldTokens(fields) + [CloseObject] == [CloseObject];
    } else {
      var tail := FieldTokens(fields.rest) + [CloseObject];
      assert FieldTokens(fields) + [CloseObject] == [Text(fields.name)] + (Tokens(fields.value) + tail);
      AtSplit(tokens, pos, [Text(fields.name)], Tokens(fields.value) + tail);
      AtOne(tokens, pos, Text(fields.name));
      AtSplit(tokens, pos + 1, Tokens(fields.value), tail);
    }
  }

  /** The loop over object fields, lines 28-41. */
  method FieldsOf(tokens: seq<Token>, pos: nat, depth: nat, ghost hint: Option<Fields>) returns (ok: bool, next: nat, ghost fields: Fields)
    requires pos <= |tokens| && depth <= MAX_DEPTH
    requires hint.Some? ==> At(tokens, pos, FieldTokens(hint.value) + [CloseObject])
    ensures ok ==> pos <= next <= |tokens| && At(tokens, pos, FieldTokens(fields)) && next == pos + |FieldTokens(fields)| && GoodFields(fields, depth)
    ensures hint.Some? ==> (ok <==> GoodFields(hint.value, depth))
    ensures hint.Some? && ok ==> fields == hint.value && next < |tokens| && tokens[next] == CloseObject
    decreases |tokens| - pos, 2
  {
    hide Tokens, UniqueNames, Height;
    fields, next := NoFields, pos;
    var seen: set<string> := {};
    ghost var left := hint;
    while More(tokens, next)
      invariant FieldsRead(tokens, pos, depth, fields, next) && seen == Names(fields)
      invariant hint.Some? <==> left.Some?
      invariant hint.Some? ==> At(tokens, next, FieldTokens(left.value) + [CloseObject]) && AppendFields(fields, left.value) == hint.value
      decreases |tokens| - next
    {
      hide FieldTokens, GoodFields, AppendFields, Names, Good, FieldsRead, At;
      FieldsReadBounds(tokens, pos, depth, fields, next);
      if left.Some? {
        FieldsHint(tokens, next, left.value);
        AppendFieldStep(fields, left.value, depth);
      }
      if !tokens[next].Text? || tokens[next].text in seen {
        return false, next, fields;
      }
      var name := tokens[next].text;
      seen := seen + {name};
      var good, after;
      ghost var tree;
      good, after, tree := Value(tokens, next + 1, depth + 1, if left.Some? then Some(left.value.value) else None);
      if !good {
        return false, next, fields;
      }
      FieldsReadStep(tokens, pos, depth, fields, next, name, tree);
      fields, next := SnocField(fields, name, tree), after;
      left := if left.Some? then Some(left.value.rest) else None;
    }
    if left.Some? {
      FieldsHint(tokens, next, left.value);
      AppendNoFields(fields);
    }
    ok := true;
  }

  /** The fields read so far are those between `pos` and `next`, and all is well with them. */
  ghost predicate FieldsRead(tokens: seq<Token>, pos: nat, depth: nat, fields: Fields, next: nat) {
    At(tokens, pos, FieldTokens(fields)) && next == pos + |FieldTokens(fields)| && GoodFields(fields, depth)
  }

  lemma FieldsReadBounds(tokens: seq<Token>, pos: nat, depth: nat, fields: Fields, next: nat)
    requires FieldsRead(tokens, pos, depth, fields, next)
    ensures pos <= next <= |tokens|
  {
  }

  lemma FieldsReadStep(tokens: seq<Token>, pos: nat, depth: nat, fields: Fields, next: nat, name: string, tree: Json)
    requires FieldsRead(tokens, pos, depth, fields, next)
    requires next < |tokens| && tokens[next] == Text(name) && name !in Names(fields)
    requires At(tokens, next + 1, Tokens(tree)) && Good(tree, depth + 1)
    ensures FieldsRead(tokens, pos, depth, SnocField(fields, name, tree), next + 1 + |Tokens(tree)|)
    ensures Names(SnocField(fields, name, tree)) == Names(fields) + {name}
  {
    hide FieldTokens, GoodFields, Good, At, Tokens, Names;
    SnocFieldMeans(fields, name, tree);
    GoodSnocField(fields, name, tree, depth);
    AtOne(tokens, next, Text(name));
    AtSplit(tokens, next, [Text(name)], Tokens(tree));
    AtSplit(tokens, pos, FieldTokens(fields), [Text(name)] + Tokens(tree));
  }

  function AppendFields(fields: Fields, more: Fields): Fields {
    match fields
    case NoFields => more
    case Field(name, value, rest) => Field(name, value, AppendFields(rest, more))
  }

  lemma {:induction false} AppendNoFields(fields: Fields)
    ensures AppendFields(fields, NoFields) == fields
  {
    if fields.Field? {
      AppendNoFields(fields.rest);
    }
  }

  lemma {:induction false} AppendFieldStep(fields: Fields, more: Fields, depth: nat)
    requires more.Field?
    ensures AppendFields(SnocField(fields, more.name, more.value), more.rest) == AppendFields(fields, more)
    ensures !Good(more.value, depth + 1) || more.name in Names(fields) ==> !GoodFields(AppendFields(fields, more), depth)
    ensures more.name in Names(AppendFields(fields, more))
  {
    if fields.Field? {
      AppendFieldStep(fields.rest, more, depth);
    }
  }

  lemma GoodSnocField(fields: Fields, name: string, t: Json, depth: nat)
    requires GoodFields(fields, depth) && Good(t, depth + 1) && name !in Names(fields)
    ensures GoodFields(SnocField(fields, name, t), depth)
  {
    SnocFieldMeans(fields, name, t);
  }

  /** Documents are told apart by their tokens, and none is the beginning of another. */
  lemma {:induction false} PrefixFree(t: Json, u: Json, a: seq<Token>, b: seq<Token>)
    requires Tokens(t) + a == Tokens(u) + b
    ensures t == u && a == b
    decreases t
  {
    FirstOf(t);
    FirstOf(u);
    assert FirstToken(t) == (Tokens(t) + a)[0] == (Tokens(u) + b)[0] == FirstToken(u);
    Rest(t, a);
    Rest(u, b);
    match t
    case String(_) =>
    case Plain =>
    case Array(items) => ItemsPrefixFree(items, u.items, a, b);
    case Object(fields) => FieldsPrefixFree(fields, u.fields, a, b);
  }

  /** What follows the first token. */
  lemma Rest(t: Json, a: seq<Token>)
    ensures var rest := (Tokens(t) + a)[1..];
            && (t.String? || t.Plain? ==> rest == a)
            && (t.Array? ==> rest == ItemTokens(t.items) + ([CloseArray] + a))
            && (t.Object? ==> rest == FieldTokens(t.fields) + ([CloseObject] + a))
  {
  }

  lemma FirstOf(t: Json)
    ensures Tokens(t)[0] == FirstToken(t)
  {
  }

  lemma {:induction false} ItemsPrefixFree(xs: Items, ys: Items, a: seq<Token>, b: seq<Token>)
    requires ItemTokens(xs) + ([CloseArray] + a) == ItemTokens(ys) + ([CloseArray] + b)
    ensures xs == ys && a == b
    decreases xs
  {
    var all := ItemTokens(xs) + ([CloseArray] + a);
    ItemsFirst(xs, a);
    ItemsFirst(ys, b);
    if xs.NoItems? {
      assert ys.NoItems?;
      assert all[1..] == a == b;
    } else {
      PrefixFree(xs.head, ys.head, ItemTokens(xs.tail) + ([CloseArray] + a), ItemTokens(ys.tail) + ([CloseArray] + b));
      ItemsPrefixFree(xs.tail, ys.tail, a, b);
    }
  }

  lemma ItemsFirst(items: Items, a: seq<Token>)
    ensures var all := ItemTokens(items) + ([CloseArray] + a);
            && (items.NoItems? <==> all[0] == CloseArray)
            && (items.Item? ==> all == Tokens(items.head) + (ItemTokens(items.tail) + ([CloseArray] + a)))
  {
    if items.Item? {
      FirstOf(items.head);
      Regroup(Tokens(items.head), ItemTokens(items.tail), [CloseArray] + a);
    }
  }

  lemma Regroup(a: seq<Token>, b: seq<Token>, c: seq<Token>)
    ensures (a + b) + c == a + (b + c)
  {
  }

  lemma {:induction false} FieldsPrefixFree(xs: Fields, ys: Fields, a: seq<Token>, b: seq<Token>)
    requires FieldTokens(xs) + ([CloseObject] + a) == FieldTokens(ys) + ([CloseObject] + b)
    ensures xs == ys && a == b
    decreases xs
  {
    var all := FieldTokens(xs) + ([CloseObject] + a);
    FieldsFirst(xs, a);
    FieldsFirst(ys, b);
    if xs.NoFields? {
      assert ys.NoFields?;
      assert all[1..] == a == b;
    } else {
      var atail, btail := FieldTokens(xs.rest) + ([CloseObject] + a), FieldTokens(ys.rest) + ([CloseObject] + b);
      PrefixFree(xs.value, ys.value, atail, btail);
      FieldsPrefixFree(xs.rest, ys.rest, a, b);
    }
  }

  lemma FieldsFirst(fields: Fields, a: seq<Token>)
    ensures var all := FieldTokens(fields) + ([CloseObject] + a);
            && (fields.NoFields? <==> all[0] == CloseObject)
            && (fields.Field? ==> all[0] == Text(fields.name) && all[1..] == Tokens(fields.value) + (FieldTokens(fields.rest) + ([CloseObject] + a)))
  {
    if fields.Field? {
      hide Tokens;
      var name, value, rest := [Text(fields.name)], Tokens(fields.value), FieldTokens(fields.rest);
      Regroup(name, value, rest);
      Regroup(name, value + rest, [CloseObject] + a);
      Regroup(value, rest, [CloseObject] + a);
    }
  }

  /** internal/model/json_document.go:13-64: the stream is accepted exactly when it is one
      whole document, with unique names throughout and at most 64 levels of nesting. */
  method ValidateUniqueFields(tokens: seq<Token>) returns (ok: bool)
    ensures ok <==> exists t :: tokens == Tokens(t) && UniqueNames(t) && Height(t) <= MAX_DEPTH
  {
    ghost var hint: Option<Json> := None;
    if t :| tokens == Tokens(t) && UniqueNames(t) && Height(t) <= MAX_DEPTH {
      hint := Some(t);
      assert At(tokens, 0, Tokens(t));
    }
    var good, next;
    ghost var tree;
    good, next, tree := Value(tokens, 0, 0, hint);
    ok := good && next == |tokens|;
    if ok {
      assert tokens == Tokens(tree);
    }
  }
}
