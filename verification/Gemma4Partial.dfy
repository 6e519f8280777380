/** Truncated Gemma4 trees (common/chat-peg-parser.cpp, lines 966-1059). */
module Gemma4Partial {
  import opened Sequences
  import opened Wrappers
  import opened JsonText
  import opened JsonMeaning
  import opened Gemma4Json

  /** What closes a node. */
  function Ending(rule: Rule): string
  {
    match rule
    case StringValue => "\""
    case ArrayValue => "]"
    case Dict => "}"
    case DictKey => "\":"
    case _ => ""
  }

  /** A truncated node renders to all that its children give, less what would close it. An
      opening quote without content yet is the exception: it is never closed. */
  lemma OpenNodeLacksEnding(n: Node)
    requires n.isPartial && n.text != ""
    ensures var closed := n.(isPartial := false);
            if n.rule.StringValue? && n.children == [] then ToJson(n) == ToJson(closed) == "\""
            else ToJson(closed) == ToJson(n) + Ending(n.rule)
  {
    hide Escape;
    var closed := n.(isPartial := false);
    assert ToJson(n) + "" == ToJson(n);
    match n.rule
    case StringValue =>
    case ArrayValue =>
      assert "[" + Joined(n.children, ",") + "" + "]" == "[" + Joined(n.children, ",") + "]";
    case Dict =>
      assert "{" + Joined(n.children, ",") + "" + "}" == "{" + Joined(n.children, ",") + "}";
    case DictKey =>
      var key := "\"" + (if n.children == [] then "" else Escape(ToJson(n.children[0])));
      assert key + "" + "\":" == key + "\":";
    case _ =>
  }

  /** A truncated string is an opening quote and text that stands for the characters read. */
  lemma OpenStringReads(content: Node, text: string)
    requires content.rule.StringContent? && content.text != "" && text != ""
    ensures var json := ToJson(Node(StringValue, text, [content], true));
            json != "" && json[0] == '"' && Unescape(json[1..]) == Some(content.text)
  {
    hide Escape, Unescape;
    var n := Node(StringValue, text, [content], true);
    assert ToJson(content) == Escape(content.text);
    assert ToJson(n) == "\"" + Escape(content.text) + "";
    assert ToJson(n)[1..] == Escape(content.text);
    UnescapeEscape(content.text);
  }

  lemma {:induction false} FollowingSnoc(ns: seq<Node>, n: Node, sep: string)
    ensures Following(ns + [n], sep) == Following(ns, sep) + (sep + ToJson(n))
    decreases |ns|
  {
    hide ToJson;
    if ns == [] {
      assert ns + [n] == [n] && [n][1..] == [];
      assert Following([n], sep) == sep + ToJson(n) + "" && "" + (sep + ToJson(n)) == sep + ToJson(n);
    } else {
      TailOfConcat(ns, [n]);
      FollowingSnoc(ns[1..], n, sep);
      ConcatAssociates(sep + ToJson(ns[0]), Following(ns[1..], sep), sep + ToJson(n));
    }
  }

  lemma JoinedSnoc(ns: seq<Node>, n: Node, sep: string)
    ensures Joined(ns + [n], sep) == Joined(ns, sep) + (if ns == [] then "" else sep) + ToJson(n)
  {
    hide ToJson, Following;
    if ns == [] {
      assert ns + [n] == [n] && [n][1..] == [];
      EmptyFollowing(sep);
      assert ToJson(n) + "" == ToJson(n) && "" + "" + ToJson(n) == ToJson(n);
    } else {
      TailOfConcat(ns, [n]);
      FollowingSnoc(ns[1..], n, sep);
      assert ToJson(ns[0]) + (Following(ns[1..], sep) + (sep + ToJson(n)))
          == ToJson(ns[0]) + Following(ns[1..], sep) + sep + ToJson(n);
    }
  }

  lemma EmptyFollowing(sep: string)
    ensures Following([], sep) == ""
  {
  }

  /** A truncated array or dict goes on, after its finished members, with what the last one
      renders to, behind a comma unless it is the first. */
  lemma OpenListGoesOn(rule: Rule, text: string, ns: seq<Node>, n: Node)
    requires (rule.ArrayValue? || rule.Dict?) && text != ""
    ensures ToJson(Node(rule, text, ns + [n], true))
         == ToJson(Node(rule, text, ns, true)) + (if ns == [] then "" else ",") + ToJson(n)
    ensures ToJson(Node(rule, text, [], true)) == if rule.ArrayValue? then "[" else "{"
  {
    hide *;
    JoinedSnoc(ns, n, ",");
    OpenList(rule, text, ns + [n]);
    OpenList(rule, text, ns);
    OpenList(rule, text, []);
    EmptyJoined(",");
    var head, comma := if rule.ArrayValue? then "[" else "{", if ns == [] then "" else ",";
    assert head + "" == head;
    ConcatAssociates(head, Joined(ns, ",") + comma, ToJson(n));
    ConcatAssociates(head, Joined(ns, ","), comma);
  }

  lemma EmptyJoined(sep: string)
    ensures Joined([], sep) == ""
  {
  }

  lemma OpenList(rule: Rule, text: string, ns: seq<Node>)
    requires (rule.ArrayValue? || rule.Dict?) && text != ""
    ensures ToJson(Node(rule, text, ns, true)) == (if rule.ArrayValue? then "[" else "{") + Joined(ns, ",")
  {
    var head := if rule.ArrayValue? then "[" else "{";
    assert head + Joined(ns, ",") + "" == head + Joined(ns, ",");
  }
}
