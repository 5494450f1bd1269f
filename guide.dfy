/** The guide rewriter: in the parsed XMLTV guide, the text of every
    `display-name` child of every top-level `channel` element is replaced by
    its value in the guide correction table. */
module Guide {
  import opened Outcomes

  /** An XML element as ElementTree holds it: tag, attributes, text (absent
      for an empty element) and child elements. */
  datatype Element = Element(tag: string, attrib: map<string, string>, text: Option<string>, children: seq<Element>)

  /** The guide correction table: display-name text to replacement, where a
      JSON null reads as `None`. */
  type GuideTable = map<string, Option<string>>

  /** How a variant applies the table: `ByKey` (`text = table[text]`, with a
      missing key ignored) applies any value present, even an empty or null
      one; `ByTruthyValue` (`if v := table.get(text): text = v`) applies only
      a non-empty one. */
  datatype Lookup = ByKey | ByTruthyValue

  /** The guide as the script obtained it: parsed, or not obtained (fetch or
      read failure), or obtained but not well-formed XML. */
  datatype GuideSource = Document(root: Element) | Unreachable | NotXml

  const ChannelTag: string := "channel"
  const DisplayNameTag: string := "display-name"

  /** The text a display-name gets, looked up by its original text. */
  function NewText(mode: Lookup, table: GuideTable, text: Option<string>): Option<string> {
    match text
    case None => None
    case Some(t) =>
      if t !in table then text
      else
        match mode
        case ByKey => table[t]
        case ByTruthyValue => if table[t].Some? && table[t].value != "" then table[t] else text
  }

  function RenameNode(mode: Lookup, table: GuideTable, d: Element): Element {
    if d.tag == DisplayNameTag then d.(text := NewText(mode, table, d.text)) else d
  }

  function RenameAll(mode: Lookup, table: GuideTable, s: seq<Element>): seq<Element> {
    seq(|s|, j requires 0 <= j < |s| => RenameNode(mode, table, s[j]))
  }

  function ChannelNode(mode: Lookup, table: GuideTable, c: Element): Element {
    if c.tag == ChannelTag then c.(children := RenameAll(mode, table, c.children)) else c
  }

  function ChannelAll(mode: Lookup, table: GuideTable, s: seq<Element>): seq<Element> {
    seq(|s|, i requires 0 <= i < |s| => ChannelNode(mode, table, s[i]))
  }

  /** The guide after the rewrite. */
  function Rewritten(mode: Lookup, table: GuideTable, root: Element): Element {
    root.(children := ChannelAll(mode, table, root.children))
  }

  // ---------------------------------------------------------------------
  // Shape

  /** Two trees that differ at most in the text of their elements. */
  predicate SameShape(a: Element, b: Element)
    decreases a
  {
    && a.tag == b.tag && a.attrib == b.attrib
    && |a.children| == |b.children|
    && forall i :: 0 <= i < |a.children| ==> SameShape(a.children[i], b.children[i])
  }

  function Count(e: Element): nat
    decreases e, 1
  {
    1 + CountAll(e.children)
  }

  function CountAll(s: seq<Element>): nat
    decreases s, 0
  {
    if s == [] then 0 else Count(s[0]) + CountAll(s[1..])
  }

  lemma {:induction false} SameShapeRefl(e: Element)
    ensures SameShape(e, e)
    decreases e
  {
    forall i | 0 <= i < |e.children| ensures SameShape(e.children[i], e.children[i]) {
      SameShapeRefl(e.children[i]);
    }
  }

  lemma {:induction false} SameShapeCount(a: Element, b: Element)
    requires SameShape(a, b)
    ensures Count(a) == Count(b)
    decreases a, 1
  {
    SameShapeCountAll(a.children, b.children);
  }

  lemma {:induction false} SameShapeCountAll(s: seq<Element>, t: seq<Element>)
    requires |s| == |t| && forall i :: 0 <= i < |s| ==> SameShape(s[i], t[i])
    ensures CountAll(s) == CountAll(t)
    decreases s, 0
  {
    if s != [] {
      SameShapeCount(s[0], t[0]);
      SameShapeCountAll(s[1..], t[1..]);
    }
  }

  /** The rewrite changes only text: every element keeps its tag, its
      attributes and its children, and the tree keeps its node count. */
  lemma RewrittenShape(mode: Lookup, table: GuideTable, root: Element)
    ensures SameShape(root, Rewritten(mode, table, root))
    ensures Count(Rewritten(mode, table, root)) == Count(root)
  {
    var r := Rewritten(mode, table, root);
    forall i | 0 <= i < |root.children| ensures SameShape(root.children[i], r.children[i]) {
      var c := root.children[i];
      if c.tag == ChannelTag {
        forall j | 0 <= j < |c.children| ensures SameShape(c.children[j], r.children[i].children[j]) {
          var d := c.children[j];
          SameShapeRefl(d);
        }
      } else {
        SameShapeRefl(c);
      }
    }
    SameShapeCount(root, r);
  }

  /** Only the texts of the `display-name` children of top-level `channel`
      elements change: the root, every other top-level element and every
      other grandchild come back as they were, and each display-name keeps
      everything but its text, which is looked up once by its original. */
  lemma OnlyDisplayNamesChange(mode: Lookup, table: GuideTable, root: Element)
    ensures var r := Rewritten(mode, table, root);
      && r.tag == root.tag && r.attrib == root.attrib && r.text == root.text
      && |r.children| == |root.children|
    ensures var r := Rewritten(mode, table, root);
      forall i :: 0 <= i < |root.children| && root.children[i].tag != ChannelTag ==>
        r.children[i] == root.children[i]
    ensures var r := Rewritten(mode, table, root);
      forall i :: 0 <= i < |root.children| ==>
        && r.children[i].tag == root.children[i].tag
        && r.children[i].attrib == root.children[i].attrib
        && r.children[i].text == root.children[i].text
        && |r.children[i].children| == |root.children[i].children|
    ensures var r := Rewritten(mode, table, root);
      forall i, j :: 0 <= i < |root.children| && 0 <= j < |root.children[i].children| ==>
        var d := root.children[i].children[j];
        var d' := r.children[i].children[j];
        && d'.tag == d.tag && d'.attrib == d.attrib && d'.children == d.children
        && (root.children[i].tag == ChannelTag && d.tag == DisplayNameTag ==> d'.text == NewText(mode, table, d.text))
        && (root.children[i].tag != ChannelTag || d.tag != DisplayNameTag ==> d' == d)
  {
  }

  // ---------------------------------------------------------------------
  // Texts

  /** The texts of the display-name elements among `s`, in order. */
  function NamesIn(s: seq<Element>): seq<Option<string>> {
    if s == [] then []
    else (if s[0].tag == DisplayNameTag then [s[0].text] else []) + NamesIn(s[1..])
  }

  /** The display-name texts of the top-level channels among `s`, in order. */
  function ChannelNames(s: seq<Element>): seq<Option<string>> {
    if s == [] then []
    else (if s[0].tag == ChannelTag then NamesIn(s[0].children) else []) + ChannelNames(s[1..])
  }

  function DisplayNames(root: Element): seq<Option<string>> {
    ChannelNames(root.children)
  }

  function MapText(mode: Lookup, table: GuideTable, s: seq<Option<string>>): seq<Option<string>> {
    seq(|s|, i requires 0 <= i < |s| => NewText(mode, table, s[i]))
  }

  lemma MapTextConcat(mode: Lookup, table: GuideTable, a: seq<Option<string>>, b: seq<Option<string>>)
    ensures MapText(mode, table, a + b) == MapText(mode, table, a) + MapText(mode, table, b)
  {
  }

  lemma {:induction false} NamesInRenamed(mode: Lookup, table: GuideTable, s: seq<Element>)
    ensures NamesIn(RenameAll(mode, table, s)) == MapText(mode, table, NamesIn(s))
  {
    if s != [] {
      var r := RenameAll(mode, table, s);
      assert r[1..] == RenameAll(mode, table, s[1..]);
      NamesInRenamed(mode, table, s[1..]);
      var head := if s[0].tag == DisplayNameTag then [s[0].text] else [];
      MapTextConcat(mode, table, head, NamesIn(s[1..]));
    }
  }

  lemma {:induction false} ChannelNamesRewritten(mode: Lookup, table: GuideTable, s: seq<Element>)
    ensures ChannelNames(ChannelAll(mode, table, s)) == MapText(mode, table, ChannelNames(s))
  {
    if s != [] {
      var r := ChannelAll(mode, table, s);
      assert r[1..] == ChannelAll(mode, table, s[1..]);
      ChannelNamesRewritten(mode, table, s[1..]);
      var head := if s[0].tag == ChannelTag then NamesIn(s[0].children) else [];
      if s[0].tag == ChannelTag {
        NamesInRenamed(mode, table, s[0].children);
      }
      MapTextConcat(mode, table, head, ChannelNames(s[1..]));
    }
  }

  /** Single pass, no chained substitution: the display-name texts after the
      rewrite are, in order, those before it, each looked up once by its
      original text. */
  lemma DisplayNamesRewritten(mode: Lookup, table: GuideTable, root: Element)
    ensures DisplayNames(Rewritten(mode, table, root)) == MapText(mode, table, DisplayNames(root))
  {
    ChannelNamesRewritten(mode, table, root.children);
  }

  /** A guide none of whose display-names is a key of the table comes back
      unchanged. */
  lemma NoMatchNoChange(mode: Lookup, table: GuideTable, root: Element)
    requires forall i, j :: 0 <= i < |root.children| && 0 <= j < |root.children[i].children| ==>
      var d := root.children[i].children[j];
      root.children[i].tag == ChannelTag && d.tag == DisplayNameTag && d.text.Some? ==> d.text.value !in table
    ensures Rewritten(mode, table, root) == root
  {
    var r := Rewritten(mode, table, root);
    forall i | 0 <= i < |root.children| ensures r.children[i] == root.children[i] {
      var c := root.children[i];
      if c.tag == ChannelTag {
        assert RenameAll(mode, table, c.children) == c.children;
      }
    }
    assert r.children == root.children;
  }

  /** Where every table value is non-empty, the two lookups agree. */
  lemma ModesAgree(table: GuideTable, root: Element)
    requires forall t :: t in table ==> table[t].Some? && table[t].value != ""
    ensures Rewritten(ByKey, table, root) == Rewritten(ByTruthyValue, table, root)
  {
    forall text: Option<string> ensures NewText(ByKey, table, text) == NewText(ByTruthyValue, table, text) { }
    var c1 := ChannelAll(ByKey, table, root.children);
    var c2 := ChannelAll(ByTruthyValue, table, root.children);
    forall i | 0 <= i < |root.children| ensures c1[i] == c2[i] {
      var c := root.children[i];
      assert RenameAll(ByKey, table, c.children) == RenameAll(ByTruthyValue, table, c.children);
    }
    assert c1 == c2;
  }

  /** Where the table maps a display-name to an empty or null value, the
      key lookup applies that value and the truthy lookup keeps the text. */
  lemma ModesDiffer(table: GuideTable, root: Element, k: nat)
    requires k < |DisplayNames(root)|
    requires var text := DisplayNames(root)[k];
      text.Some? && text.value in table
      && (table[text.value].None? || table[text.value].value == "")
    ensures |DisplayNames(Rewritten(ByKey, table, root))| == |DisplayNames(root)|
    ensures |DisplayNames(Rewritten(ByTruthyValue, table, root))| == |DisplayNames(root)|
    ensures DisplayNames(Rewritten(ByKey, table, root))[k] == table[DisplayNames(root)[k].value]
    ensures DisplayNames(Rewritten(ByTruthyValue, table, root))[k] == DisplayNames(root)[k]
  {
    DisplayNamesRewritten(ByKey, table, root);
    DisplayNamesRewritten(ByTruthyValue, table, root);
  }

  // ---------------------------------------------------------------------
  // The rewrite loop

  /** The rewrite loop: for each top-level `channel` element and each of its
      `display-name` children, the text is replaced in place. */
  method RewriteGuide(mode: Lookup, table: GuideTable, tree: Element) returns (r: Element)
    ensures r == Rewritten(mode, table, tree)
  {
    var channels := tree.children;
    var i := 0;
    while i < |channels|
      invariant 0 <= i <= |channels| == |tree.children|
      invariant forall k :: 0 <= k < i ==> channels[k] == ChannelNode(mode, table, tree.children[k])
      invariant forall k :: i <= k < |channels| ==> channels[k] == tree.children[k]
    {
      var channel := channels[i];
      if channel.tag == ChannelTag {
        var names := channel.children;
        var j := 0;
        while j < |names|
          invariant 0 <= j <= |names| == |channel.children|
          invariant forall k :: 0 <= k < j ==> names[k] == RenameNode(mode, table, channel.children[k])
          invariant forall k :: j <= k < |names| ==> names[k] == channel.children[k]
        {
          var displayName := names[j];
          if displayName.tag == DisplayNameTag {
            var text := displayName.text;
            match mode {
              case ByKey =>
                if text.Some? && text.value in table {
                  text := table[text.value];
                }
              case ByTruthyValue =>
                if text.Some? && text.value in table && table[text.value].Some? && table[text.value].value != "" {
                  text := table[text.value];
                }
            }
            names := names[j := displayName.(text := text)];
          }
          j := j + 1;
        }
        assert names == RenameAll(mode, table, channel.children);
        channels := channels[i := channel.(children := names)];
      }
      i := i + 1;
    }
    assert channels == ChannelAll(mode, table, tree.children);
    r := tree.(children := channels);
  }
}
