/** Rendering a Gemma4 argument tree as JSON text
    (`gemma4_to_json`, common/chat-peg-parser.cpp, lines 966-1059). */
module Gemma4Json {
  import opened JsonText

  datatype Rule =
    | Number | Boolean | Null | StringContent | StringValue | ArrayValue
    | DictKeyName | DictKey | DictKv | Dict | Value | Other

  /** A node of the parse tree: the rule that made it, the text it spans, its children,
      and whether the input ended inside it. */
  datatype Node = Node(rule: Rule, text: string, children: seq<Node>, isPartial: bool)

  function ToJson(n: Node): string
    decreases n
  {
    if n.text == "" then ""
    else
      match n.rule
      case Number => n.text
      case Boolean => n.text
      case Null => n.text
      case StringContent => Escape(n.text)
      case StringValue =>
        if n.children == [] then "\""
        else "\"" + ToJson(n.children[0]) + (if n.isPartial then "" else "\"")
      case ArrayValue => "[" + Joined(n.children, ",") + (if n.isPartial then "" else "]")
      case DictKeyName => n.text
      case DictKey =>
        "\"" + (if n.children == [] then "" else Escape(ToJson(n.children[0]))) + (if n.isPartial then "" else "\":")
      case DictKv => Joined(n.children, "")
      case Dict => "{" + Joined(n.children, ",") + (if n.isPartial then "" else "}")
      case Value => if n.children == [] then "" else ToJson(n.children[0])
      case Other => ""
  }

  function Joined(ns: seq<Node>, sep: string): string
    decreases ns
  {
    if ns == [] then "" else ToJson(ns[0]) + Following(ns[1..], sep)
  }

  function Following(ns: seq<Node>, sep: string): string
    decreases ns
  {
    if ns == [] then "" else sep + ToJson(ns[0]) + Following(ns[1..], sep)
  }

  // ----- truncation -----

  /** `t` is what the parser has of `u` when the input stops earlier: the same node, or a
      partial one whose text is cut, with the later children missing and the last one left
      possibly cut in the same way. */
  predicate Truncates(t: Node, u: Node)
    decreases u
  {
    || t == u
    || (&& t.rule == u.rule && t.isPartial && t.text <= u.text
        && (t.children <= u.children || CutChildren(t.children, u.children)))
  }

  predicate CutChildren(ts: seq<Node>, us: seq<Node>)
    decreases us
  {
    var last := |ts| - 1;
    0 < |ts| <= |us| && ts[..last] == us[..last] && Truncates(ts[last], us[last])
  }

  lemma PrefixUnderHead(h: string, a: string, b: string, closer: string)
    requires a <= b
    ensures h + a <= h + b + closer
  {
  }

  /** The text of a truncated tree only ever grows into the text of the tree. */
  lemma {:induction false} TruncationIsPrefix(t: Node, u: Node)
    requires Truncates(t, u)
    ensures ToJson(t) <= ToJson(u)
    decreases u, 1
  {
    if t != u && t.text != "" {
      FirstChild(t, u);
      match u.rule
      case StringContent =>
        EscapePrefix(t.text, u.text);
      case StringValue =>
        if t.children != [] {
          PrefixUnderHead("\"", ToJson(t.children[0]), ToJson(u.children[0]), if u.isPartial then "" else "\"");
        }
      case DictKey =>
        if t.children != [] {
          EscapePrefix(ToJson(t.children[0]), ToJson(u.children[0]));
          PrefixUnderHead("\"", Escape(ToJson(t.children[0])), Escape(ToJson(u.children[0])),
                          if u.isPartial then "" else "\":");
        }
      case ArrayValue =>
        ChildrenPrefix(t, u, ",");
        PrefixUnderHead("[", Joined(t.children, ","), Joined(u.children, ","), if u.isPartial then "" else "]");
      case Dict =>
        ChildrenPrefix(t, u, ",");
        PrefixUnderHead("{", Joined(t.children, ","), Joined(u.children, ","), if u.isPartial then "" else "}");
      case DictKv =>
        ChildrenPrefix(t, u, "");
      case _ =>
    }
  }

  lemma {:induction false} FirstChild(t: Node, u: Node)
    requires Truncates(t, u) && t != u
    ensures t.children != [] ==> u.children != [] && ToJson(t.children[0]) <= ToJson(u.children[0])
    decreases u, 0
  {
    if t.children != [] && |t.children| == 1 && CutChildren(t.children, u.children) {
      TruncationIsPrefix(t.children[0], u.children[0]);
    } else if t.children != [] {
      assert t.children[0] == u.children[0] by {
        if !(t.children <= u.children) {
          var last := |t.children| - 1;
          assert t.children[..last][0] == u.children[..last][0];
        }
      }
    }
  }

  lemma ChildrenPrefix(t: Node, u: Node, sep: string)
    requires Truncates(t, u) && t != u
    ensures Joined(t.children, sep) <= Joined(u.children, sep)
    decreases u, 0
  {
    var ts, us := t.children, u.children;
    if ts != [] {
      var last := |ts| - 1;
      assert ts[..last] == us[..last] && Truncates(ts[last], us[last]) by {
        if ts <= us {
          assert ts == us[..|ts|];
        }
      }
      TruncationIsPrefix(ts[last], us[last]);
      if |ts| > 1 {
        assert ts[0] == ts[..last][0] == us[..last][0] == us[0];
        assert ts[1..][..last - 1] == ts[..last][1..] && us[1..][..last - 1] == us[..last][1..];
        FollowingPrefix(ts[1..], us[1..], sep);
      }
    }
  }

  lemma {:induction false} FollowingPrefix(ts: seq<Node>, us: seq<Node>, sep: string)
    requires 0 < |ts| <= |us| && ts[..|ts| - 1] == us[..|ts| - 1]
    requires ToJson(ts[|ts| - 1]) <= ToJson(us[|ts| - 1])
    ensures Following(ts, sep) <= Following(us, sep)
    decreases |ts|
  {
    var last := |ts| - 1;
    if last > 0 {
      assert ts[0] == ts[..last][0] == us[..last][0] == us[0];
      assert ts[1..][..last - 1] == ts[..last][1..] && us[1..][..last - 1] == us[..last][1..];
      FollowingPrefix(ts[1..], us[1..], sep);
    } else {
      assert ts[1..] == [];
    }
  }
}
