/** What a complete Gemma4 argument tree means: the rules of common/chat.cpp, lines
    1516-1548, give every tree a JSON value, and the renderer writes that value. */
module Gemma4Value {
  import opened Sequences
  import opened JsonText
  import opened Gemma4Json

  datatype Json =
    | Num(text: string)
    | Bool(b: bool)
    | Nil
    | Str(s: string)
    | Arr(items: seq<Json>)
    | Obj(members: seq<Member>)

  datatype Member = Member(key: string, value: Json)

  // ----- JSON text without spaces -----

  function Render(j: Json): string
    decreases j
  {
    match j
    case Num(t) => t
    case Bool(b) => if b then "true" else "false"
    case Nil => "null"
    case Str(s) => Quoted(s)
    case Arr(items) => "[" + RenderItems(items) + "]"
    case Obj(ms) => "{" + RenderMembers(ms) + "}"
  }

  function RenderItems(items: seq<Json>): string
    decreases items
  {
    if items == [] then "" else Render(items[0]) + MoreItems(items[1..])
  }

  function MoreItems(items: seq<Json>): string
    decreases items
  {
    if items == [] then "" else "," + Render(items[0]) + MoreItems(items[1..])
  }

  function RenderMember(m: Member): string
    decreases m
  {
    Quoted(m.key) + ":" + Render(m.value)
  }

  function RenderMembers(ms: seq<Member>): string
    decreases ms
  {
    if ms == [] then "" else RenderMember(ms[0]) + MoreMembers(ms[1..])
  }

  function MoreMembers(ms: seq<Member>): string
    decreases ms
  {
    if ms == [] then "" else "," + RenderMember(ms[0]) + MoreMembers(ms[1..])
  }

  // ----- complete trees -----

  predicate NumberChar(c: char)
  {
    '0' <= c <= '9' || c == '-' || c == '+' || c == '.' || c == 'e' || c == 'E'
  }

  /** Numbers start with a digit or a minus sign. */
  predicate NumberText(s: string)
  {
    && s != "" && ('0' <= s[0] <= '9' || s[0] == '-')
    && forall i :: 0 <= i < |s| ==> NumberChar(s[i])
  }

  predicate Closed(n: Node)
  {
    !n.isPartial && n.text != ""
  }

  /** The tree is one the rules produce when no input is missing. */
  predicate IsValue(n: Node)
    decreases n
  {
    Closed(n) && n.rule == Value && |n.children| == 1 && IsBare(n.children[0])
  }

  predicate IsBare(n: Node)
    decreases n
  {
    Closed(n) &&
    match n.rule
    case Number => NumberText(n.text)
    case Boolean => n.text == "true" || n.text == "false"
    case Null => n.text == "null"
    case StringValue => |n.children| == 1 && n.children[0].rule == StringContent
    case ArrayValue => forall i :: 0 <= i < |n.children| ==> IsValue(n.children[i])
    case Dict => forall i :: 0 <= i < |n.children| ==> IsKv(n.children[i])
    case _ => false
  }

  predicate IsKv(n: Node)
    decreases n
  {
    && Closed(n) && n.rule == DictKv && |n.children| == 2
    && IsKey(n.children[0]) && IsValue(n.children[1])
  }

  predicate IsKey(n: Node)
  {
    Closed(n) && n.rule == DictKey && |n.children| == 1 && n.children[0].rule == DictKeyName
  }

  function ValueOf(n: Node): Json
    requires IsValue(n)
    decreases n
  {
    BareValue(n.children[0])
  }

  function BareValue(n: Node): Json
    requires IsBare(n)
    decreases n
  {
    match n.rule
    case Number => Num(n.text)
    case Boolean => Bool(n.text == "true")
    case Null => Nil
    case StringValue => Str(n.children[0].text)
    case ArrayValue => Arr(seq(|n.children|, i requires 0 <= i < |n.children| => ValueOf(n.children[i])))
    case Dict => Obj(seq(|n.children|, i requires 0 <= i < |n.children| => MemberOf(n.children[i])))
  }

  function MemberOf(n: Node): Member
    requires IsKv(n)
    decreases n
  {
    Member(n.children[0].children[0].text, ValueOf(n.children[1]))
  }

  /** A complete value, or one of its parts that is a value: the arguments of a call are a
      dict that no value node stands around. */
  predicate IsComplete(n: Node)
  {
    IsValue(n) || IsBare(n)
  }

  function Meaning(n: Node): Json
    requires IsComplete(n)
  {
    if IsValue(n) then ValueOf(n) else BareValue(n)
  }

  // ----- the renderer writes the value -----

  /** On a complete tree the renderer's text is the JSON text of the tree's meaning. */
  lemma RendersMeaning(n: Node)
    requires IsComplete(n)
    ensures ToJson(n) == Render(Meaning(n))
  {
    if IsValue(n) {
      RendersValue(n);
    } else {
      RendersBare(n);
    }
  }

  lemma MeaningNumbers(n: Node)
    requires IsComplete(n)
    ensures Numbers(Meaning(n))
  {
    ValueNumbers(if IsValue(n) then n.children[0] else n);
  }

  lemma {:induction false} RendersValue(n: Node)
    requires IsValue(n)
    ensures ToJson(n) == Render(ValueOf(n))
    decreases n
  {
    RendersBare(n.children[0]);
  }

  lemma {:induction false} RendersBare(n: Node)
    requires IsBare(n)
    ensures ToJson(n) == Render(BareValue(n))
    decreases n
  {
    match n.rule
    case StringValue =>
      assert ToJson(n.children[0]) == Escape(n.children[0].text);
    case ArrayValue =>
      forall i | 0 <= i < |n.children| ensures ToJson(n.children[i]) == Render(ValueOf(n.children[i])) {
        RendersValue(n.children[i]);
      }
      JoinedItems(n.children, BareValue(n).items);
    case Dict =>
      forall i | 0 <= i < |n.children| ensures ToJson(n.children[i]) == RenderMember(MemberOf(n.children[i])) {
        RendersMember(n.children[i]);
      }
      JoinedMembers(n.children, BareValue(n).members);
    case _ =>
  }

  lemma JoinedItems(ns: seq<Node>, items: seq<Json>)
    requires |ns| == |items| && forall i :: 0 <= i < |ns| ==> ToJson(ns[i]) == Render(items[i])
    ensures Joined(ns, ",") == RenderItems(items)
  {
    hide ToJson, Render;
    if ns != [] {
      FollowingItems(ns[1..], items[1..]);
    }
  }

  lemma JoinedMembers(ns: seq<Node>, ms: seq<Member>)
    requires |ns| == |ms| && forall i :: 0 <= i < |ns| ==> ToJson(ns[i]) == RenderMember(ms[i])
    ensures Joined(ns, ",") == RenderMembers(ms)
  {
    hide ToJson, RenderMember;
    if ns != [] {
      FollowingMembers(ns[1..], ms[1..]);
    }
  }

  lemma {:induction false} RendersMember(n: Node)
    requires IsKv(n)
    ensures ToJson(n) == RenderMember(MemberOf(n))
    decreases n
  {
    var key, value := n.children[0], n.children[1];
    RendersValue(value);
    assert n.children[1..] == [value] && n.children[1..][1..] == [];
    assert Following([value], "") == ToJson(value);
    assert ToJson(key.children[0]) == key.children[0].text;
    assert ToJson(key) == Quoted(key.children[0].text) + ":";
  }

  lemma {:induction false} FollowingItems(ns: seq<Node>, items: seq<Json>)
    requires |ns| == |items| && forall i :: 0 <= i < |ns| ==> ToJson(ns[i]) == Render(items[i])
    ensures Following(ns, ",") == MoreItems(items)
    decreases |ns|
  {
    if ns != [] {
      FollowingItems(ns[1..], items[1..]);
    }
  }

  lemma {:induction false} FollowingMembers(ns: seq<Node>, ms: seq<Member>)
    requires |ns| == |ms| && forall i :: 0 <= i < |ns| ==> ToJson(ns[i]) == RenderMember(ms[i])
    ensures Following(ns, ",") == MoreMembers(ms)
    decreases |ns|
  {
    if ns != [] {
      FollowingMembers(ns[1..], ms[1..]);
    }
  }

  // ----- JSON text determines the value -----

  predicate Numbers(j: Json)
    decreases j
  {
    match j
    case Num(t) => NumberText(t)
    case Arr(items) => forall i :: 0 <= i < |items| ==> Numbers(items[i])
    case Obj(ms) => forall i :: 0 <= i < |ms| ==> Numbers(ms[i].value)
    case _ => true
  }

  lemma {:induction false} ValueNumbers(n: Node)
    requires IsBare(n)
    ensures Numbers(BareValue(n))
    decreases n
  {
    match n.rule
    case ArrayValue =>
      forall i | 0 <= i < |n.children| ensures Numbers(ValueOf(n.children[i])) {
        ValueNumbers(n.children[i].children[0]);
      }
    case Dict =>
      forall i | 0 <= i < |n.children| ensures Numbers(MemberOf(n.children[i]).value) {
        assert IsKv(n.children[i]) && IsValue(n.children[i].children[1]);
        ValueNumbers(n.children[i].children[1].children[0]);
      }
    case _ =>
  }

  /** What may follow a value: nothing, a comma or a closer. */
  predicate Delimited(x: string)
  {
    x == "" || x[0] == ',' || x[0] == ']' || x[0] == '}'
  }

  lemma {:induction false} NumberEnds(s: string, t: string, x: string, y: string)
    requires (forall i :: 0 <= i < |s| ==> NumberChar(s[i])) && (forall i :: 0 <= i < |t| ==> NumberChar(t[i]))
    requires Delimited(x) && Delimited(y) && s + x == t + y
    ensures s == t && x == y
    decreases |s|
  {
    if s != "" && t != "" {
      TailOfConcat(s, x);
      TailOfConcat(t, y);
      NumberEnds(s[1..], t[1..], x, y);
    } else if s != "" {
      TailOfConcat(s, x);
      assert false;
    } else if t != "" {
      TailOfConcat(t, y);
      assert false;
    } else {
      assert s + x == x && t + y == y;
    }
  }

  lemma EscapeCharShape(c: char)
    ensures var e := EscapeChar(c);
      || (|e| == 1 && e[0] == c && c != '\\' && c != '"')
      || (|e| == 2 && e[0] == '\\' && e[1] != 'u')
      || (|e| == 6 && e[0] == '\\' && e[1] == 'u')
  {
  }

  lemma EscapeCharInjective(c: char, d: char)
    requires EscapeChar(c) == EscapeChar(d)
    ensures c == d
  {
    EscapeCharShape(c);
    var e := EscapeChar(c);
    if |e| == 6 {
      assert e[4] == HexDigit(c as int / 16) == HexDigit(d as int / 16);
      assert e[5] == HexDigit(c as int % 16) == HexDigit(d as int % 16);
    } else if |e| == 2 {
      assert e[1] == EscapeChar(d)[1];
    }
  }

  /** Escaped characters form a prefix code in which no code word starts with a quote. */
  lemma EscapeCharUnique(c: char, d: char, x: string, y: string)
    requires EscapeChar(c) + x == EscapeChar(d) + y
    ensures c == d && x == y
  {
    EscapeCharShape(c);
    EscapeCharShape(d);
    EscapeCharInjectiveWhen(c, d);
    hide EscapeChar;
    var e, f := EscapeChar(c), EscapeChar(d);
    assert (e + x)[0] == e[0] && (f + y)[0] == f[0];
    assert |e| > 1 && |f| > 1 ==> (e + x)[1] == e[1] && (f + y)[1] == f[1];
    assert |e| == |f|;
    assert (e + x)[|e|..] == x && (f + y)[|f|..] == y;
    assert e == (e + x)[..|e|] == (f + y)[..|e|] == f;
  }

  lemma EscapeCharInjectiveWhen(c: char, d: char)
    ensures EscapeChar(c) == EscapeChar(d) ==> c == d
  {
    if EscapeChar(c) == EscapeChar(d) {
      EscapeCharInjective(c, d);
    }
  }

  lemma EscapeUnfold(s: string, x: string)
    requires s != ""
    ensures EscapeChar(s[0])[0] != '"'
    ensures Escape(s) + "\"" + x == EscapeChar(s[0]) + (Escape(s[1..]) + "\"" + x)
    ensures (Escape(s) + "\"" + x)[0] == EscapeChar(s[0])[0]
  {
    EscapeCharShape(s[0]);
    hide EscapeChar;
    assert Escape(s) == EscapeChar(s[0]) + Escape(s[1..]);
  }

  lemma EscapeEmpty(x: string)
    ensures Escape("") + "\"" + x == "\"" + x
  {
  }

  lemma {:induction false} EscapedEnds(s: string, t: string, x: string, y: string)
    requires Escape(s) + "\"" + x == Escape(t) + "\"" + y
    ensures s == t && x == y
    decreases |s|
  {
    hide Escape, EscapeChar;
    if s == "" {
      EscapeEmpty(x);
      if t != "" {
        EscapeUnfold(t, y);
        assert false;
      }
      EscapeEmpty(y);
      assert ("\"" + x)[1..] == x && ("\"" + y)[1..] == y;
    } else if t == "" {
      EscapeEmpty(y);
      EscapeUnfold(s, x);
      assert false;
    } else {
      EscapeUnfold(s, x);
      EscapeUnfold(t, y);
      var u, v := Escape(s[1..]) + "\"" + x, Escape(t[1..]) + "\"" + y;
      EscapeCharUnique(s[0], t[0], u, v);
      EscapedEnds(s[1..], t[1..], x, y);
    }
  }

  lemma QuotedEnds(s: string, t: string, x: string, y: string)
    requires Quoted(s) + x == Quoted(t) + y
    ensures s == t && x == y
  {
    hide Escape, Quoted;
    QuotedTail(s, x);
    QuotedTail(t, y);
    EscapedEnds(s, t, x, y);
  }

  lemma QuotedTail(s: string, x: string)
    ensures (Quoted(s) + x)[1..] == Escape(s) + "\"" + x
  {
    hide Escape;
  }

  datatype Kind = KNum | KTrue | KFalse | KNil | KStr | KArr | KObj | KNone

  function KindOf(j: Json): Kind
  {
    match j
    case Num(_) => KNum
    case Bool(b) => if b then KTrue else KFalse
    case Nil => KNil
    case Str(_) => KStr
    case Arr(_) => KArr
    case Obj(_) => KObj
  }

  function HeadKind(s: string): Kind
  {
    if s == "" then KNone
    else if '0' <= s[0] <= '9' || s[0] == '-' then KNum
    else if s[0] == 't' then KTrue
    else if s[0] == 'f' then KFalse
    else if s[0] == 'n' then KNil
    else if s[0] == '"' then KStr
    else if s[0] == '[' then KArr
    else if s[0] == '{' then KObj
    else KNone
  }

  /** The first character of a value's text tells its kind. */
  lemma RenderHead(j: Json, x: string)
    requires Numbers(j)
    ensures HeadKind(Render(j) + x) == KindOf(j) != KNone
  {
    assert HeadKind(Render(j)) == KindOf(j) && Render(j) != "";
    TailOfConcat(Render(j), x);
  }

  lemma Inner(h: char, body: string, c: string, x: string)
    ensures ([h] + body + c + x)[1..] == body + (c + x)
  {
  }

  /** Unambiguous: a value's text, up to the delimiter that follows it, fixes the value. */
  lemma {:induction false} ValueEnds(a: Json, b: Json, x: string, y: string)
    requires Numbers(a) && Numbers(b) && Delimited(x) && Delimited(y)
    requires Render(a) + x == Render(b) + y
    ensures a == b && x == y
    decreases a, 1
  {
    RenderHead(a, x);
    RenderHead(b, y);
    assert KindOf(a) == KindOf(b);
    match a
    case Num(t) => NumberEnds(t, b.text, x, y);
    case Bool(v) => assert x == (Render(a) + x)[|Render(a)|..] && y == (Render(b) + y)[|Render(b)|..];
    case Nil => assert x == ("null" + x)[4..] && y == ("null" + y)[4..];
    case Str(t) => QuotedEnds(t, b.s, x, y);
    case Arr(items) =>
      Inner('[', RenderItems(items), "]", x);
      Inner('[', RenderItems(b.items), "]", y);
      ItemsEnd(items, b.items, x, y);
    case Obj(ms) =>
      Inner('{', RenderMembers(ms), "}", x);
      Inner('{', RenderMembers(b.members), "}", y);
      MembersEnd(ms, b.members, x, y);
  }

  ghost predicate AllNumbers(items: seq<Json>)
  {
    forall i :: 0 <= i < |items| ==> Numbers(items[i])
  }

  lemma NothingBefore(z: string)
    ensures RenderItems([]) + z == MoreItems([]) + z == z
    ensures RenderMembers([]) + z == MoreMembers([]) + z == z
  {
  }

  lemma ItemsUnfold(items: seq<Json>, z: string)
    requires items != []
    ensures RenderItems(items) + z == Render(items[0]) + (MoreItems(items[1..]) + z)
  {
  }

  lemma MoreItemsUnfold(items: seq<Json>, z: string)
    requires items != []
    ensures MoreItems(items) + z == "," + (Render(items[0]) + (MoreItems(items[1..]) + z))
  {
  }

  lemma ItemsHead(items: seq<Json>, z: string)
    requires AllNumbers(items) && z != "" && z[0] == ']'
    ensures HeadKind(RenderItems(items) + z) == KNone <==> items == []
    ensures MoreItems(items) + z != "" && ((MoreItems(items) + z)[0] == ',' <==> items != [])
  {
    NothingBefore(z);
    if items != [] {
      ItemsUnfold(items, z);
      MoreItemsUnfold(items, z);
      RenderHead(items[0], MoreItems(items[1..]) + z);
    }
  }

  lemma {:induction false} ItemsEnd(items: seq<Json>, others: seq<Json>, x: string, y: string)
    requires AllNumbers(items) && AllNumbers(others)
    requires RenderItems(items) + ("]" + x) == RenderItems(others) + ("]" + y)
    ensures items == others && x == y
    decreases items, 1
  {
    var u, v := "]" + x, "]" + y;
    ItemsHead(items, u);
    ItemsHead(others, v);
    if items == [] {
      NothingBefore(u);
      NothingBefore(v);
      assert u[1..] == x && v[1..] == y;
    } else {
      ItemsUnfold(items, u);
      ItemsUnfold(others, v);
      MoreDelimited(items[1..], u);
      MoreDelimited(others[1..], v);
      ValueEnds(items[0], others[0], MoreItems(items[1..]) + u, MoreItems(others[1..]) + v);
      MoreItemsEnd(items[1..], others[1..], x, y);
    }
  }

  lemma MoreDelimited(items: seq<Json>, z: string)
    requires Delimited(z)
    ensures Delimited(MoreItems(items) + z)
  {
    if items != [] {
      MoreItemsUnfold(items, z);
    }
  }

  lemma {:induction false} MoreItemsEnd(items: seq<Json>, others: seq<Json>, x: string, y: string)
    requires AllNumbers(items) && AllNumbers(others)
    requires MoreItems(items) + ("]" + x) == MoreItems(others) + ("]" + y)
    ensures items == others && x == y
    decreases items, 0
  {
    var u, v := "]" + x, "]" + y;
    ItemsHead(items, u);
    ItemsHead(others, v);
    if items == [] {
      NothingBefore(u);
      NothingBefore(v);
      assert u[1..] == x && v[1..] == y;
    } else {
      MoreItemsUnfold(items, u);
      MoreItemsUnfold(others, v);
      var p, q := MoreItems(items[1..]) + u, MoreItems(others[1..]) + v;
      assert ("," + (Render(items[0]) + p))[1..] == Render(items[0]) + p;
      assert ("," + (Render(others[0]) + q))[1..] == Render(others[0]) + q;
      MoreDelimited(items[1..], u);
      MoreDelimited(others[1..], v);
      ValueEnds(items[0], others[0], p, q);
      MoreItemsEnd(items[1..], others[1..], x, y);
      assert items == [items[0]] + items[1..] && others == [others[0]] + others[1..];
    }
  }

  lemma MemberHead(m: Member, x: string)
    ensures HeadKind(RenderMember(m) + x) == KStr
  {
  }

  lemma {:induction false} MemberEnds(m: Member, o: Member, x: string, y: string)
    requires Numbers(m.value) && Numbers(o.value) && Delimited(x) && Delimited(y)
    requires RenderMember(m) + x == RenderMember(o) + y
    ensures m == o && x == y
    decreases m
  {
    MemberUnfold(m, x);
    MemberUnfold(o, y);
    var p, q := ":" + (Render(m.value) + x), ":" + (Render(o.value) + y);
    QuotedEnds(m.key, o.key, p, q);
    assert p[1..] == Render(m.value) + x && q[1..] == Render(o.value) + y;
    ValueEnds(m.value, o.value, x, y);
  }

  lemma MemberUnfold(m: Member, x: string)
    ensures RenderMember(m) + x == Quoted(m.key) + (":" + (Render(m.value) + x))
  {
  }

  ghost predicate AllMemberNumbers(ms: seq<Member>)
  {
    forall i :: 0 <= i < |ms| ==> Numbers(ms[i].value)
  }

  lemma MembersUnfold(ms: seq<Member>, z: string)
    requires ms != []
    ensures RenderMembers(ms) + z == RenderMember(ms[0]) + (MoreMembers(ms[1..]) + z)
  {
  }

  lemma MoreMembersUnfold(ms: seq<Member>, z: string)
    requires ms != []
    ensures MoreMembers(ms) + z == "," + (RenderMember(ms[0]) + (MoreMembers(ms[1..]) + z))
  {
  }

  lemma MembersHead(ms: seq<Member>, z: string)
    requires AllMemberNumbers(ms) && z != "" && z[0] == '}'
    ensures HeadKind(RenderMembers(ms) + z) == KNone <==> ms == []
    ensures MoreMembers(ms) + z != "" && ((MoreMembers(ms) + z)[0] == ',' <==> ms != [])
  {
    NothingBefore(z);
    if ms != [] {
      MembersUnfold(ms, z);
      MoreMembersUnfold(ms, z);
      MemberHead(ms[0], MoreMembers(ms[1..]) + z);
    }
  }

  lemma {:induction false} MembersEnd(ms: seq<Member>, others: seq<Member>, x: string, y: string)
    requires AllMemberNumbers(ms) && AllMemberNumbers(others)
    requires RenderMembers(ms) + ("}" + x) == RenderMembers(others) + ("}" + y)
    ensures ms == others && x == y
    decreases ms, 1
  {
    var u, v := "}" + x, "}" + y;
    MembersHead(ms, u);
    MembersHead(others, v);
    if ms == [] {
      NothingBefore(u);
      NothingBefore(v);
      assert u[1..] == x && v[1..] == y;
    } else {
      MembersUnfold(ms, u);
      MembersUnfold(others, v);
      MoreMembersDelimited(ms[1..], u);
      MoreMembersDelimited(others[1..], v);
      MemberEnds(ms[0], others[0], MoreMembers(ms[1..]) + u, MoreMembers(others[1..]) + v);
      MoreMembersEnd(ms[1..], others[1..], x, y);
    }
  }

  lemma MoreMembersDelimited(ms: seq<Member>, z: string)
    requires Delimited(z)
    ensures Delimited(MoreMembers(ms) + z)
  {
    if ms != [] {
      MoreMembersUnfold(ms, z);
    }
  }

  lemma {:induction false} MoreMembersEnd(ms: seq<Member>, others: seq<Member>, x: string, y: string)
    requires AllMemberNumbers(ms) && AllMemberNumbers(others)
    requires MoreMembers(ms) + ("}" + x) == MoreMembers(others) + ("}" + y)
    ensures ms == others && x == y
    decreases ms, 0
  {
    var u, v := "}" + x, "}" + y;
    MembersHead(ms, u);
    MembersHead(others, v);
    if ms == [] {
      NothingBefore(u);
      NothingBefore(v);
      assert u[1..] == x && v[1..] == y;
    } else {
      MoreMembersUnfold(ms, u);
      MoreMembersUnfold(others, v);
      var p, q := MoreMembers(ms[1..]) + u, MoreMembers(others[1..]) + v;
      assert ("," + (RenderMember(ms[0]) + p))[1..] == RenderMember(ms[0]) + p;
      assert ("," + (RenderMember(others[0]) + q))[1..] == RenderMember(others[0]) + q;
      MoreMembersDelimited(ms[1..], u);
      MoreMembersDelimited(others[1..], v);
      MemberEnds(ms[0], others[0], p, q);
      MoreMembersEnd(ms[1..], others[1..], x, y);
      assert ms == [ms[0]] + ms[1..] && others == [others[0]] + others[1..];
    }
  }

  /** Nothing is lost: complete trees with the same text have the same value. */
  lemma SameTextSameValue(n: Node, o: Node)
    requires IsComplete(n) && IsComplete(o) && ToJson(n) == ToJson(o)
    ensures Meaning(n) == Meaning(o)
  {
    hide Meaning, Render, ToJson, IsComplete;
    RendersMeaning(n);
    RendersMeaning(o);
    MeaningNumbers(n);
    MeaningNumbers(o);
    assert Render(Meaning(n)) + "" == Render(Meaning(n)) && Render(Meaning(o)) + "" == Render(Meaning(o));
    ValueEnds(Meaning(n), Meaning(o), "", "");
  }
}
