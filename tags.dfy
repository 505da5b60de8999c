/** The tag formatter of html_writer.py (Html._get_open_and_close_tags).
    Mappings (styles, attributes) are sequences of key/value pairs in the
    order the caller supplies them. No escaping is done. */
module Tags {
  import opened Wrappers

  /** The arguments of a tag: name, id_, classes, styles, attributes, each
      optional one None when the caller omits it. */
  datatype TagSpec = TagSpec(
    name: string,
    id: Option<string>,
    classes: Option<seq<string>>,
    styles: Option<seq<(string, string)>>,
    attributes: Option<seq<(string, string)>>)

  /** A tag with just a name, as in tag('div'). */
  function Bare(name: string): TagSpec
  {
    TagSpec(name, None, None, None, None)
  }

  /** Python's sep.join(xs): it starts with the first item. */
  function Join(sep: string, xs: seq<string>): (r: string)
    ensures |xs| > 0 ==> |r| >= |xs[0]| && r[..|xs[0]|] == xs[0]
  {
    if |xs| == 0 then ""
    else if |xs| == 1 then xs[0]
    else xs[0] + sep + Join(sep, xs[1..])
  }

  /** One entry of the style attribute: `key: val;`. */
  function StyleItem(kv: (string, string)): string
  {
    kv.0 + ": " + kv.1 + ";"
  }

  /** One extra attribute: `key="val"`. */
  function AttributeItem(kv: (string, string)): string
  {
    kv.0 + "=\"" + kv.1 + "\""
  }

  function StyleItems(styles: seq<(string, string)>): seq<string>
  {
    seq(|styles|, i requires 0 <= i < |styles| => StyleItem(styles[i]))
  }

  function AttributeItems(attributes: seq<(string, string)>): seq<string>
  {
    seq(|attributes|, i requires 0 <= i < |attributes| => AttributeItem(attributes[i]))
  }

  /** The words inside the open tag, in their fixed order: the name, the
      unquoted id, the quoted class list, the quoted style list, then every
      extra attribute in the order supplied. */
  function TagWords(t: TagSpec): seq<string>
  {
    FixedWords(t) + (if t.attributes.Some? then AttributeItems(t.attributes.value) else [])
  }

  /** The words before the extra attributes. */
  function FixedWords(t: TagSpec): seq<string>
  {
    [t.name]
    + (if t.id.Some? then ["id=" + t.id.value] else [])
    + (if t.classes.Some? then ["class=\"" + Join(" ", t.classes.value) + "\""] else [])
    + (if t.styles.Some? then ["style=\"" + Join(" ", StyleItems(t.styles.value)) + "\""] else [])
  }

  function OpenTagText(t: TagSpec): string
  {
    "<" + Join(" ", TagWords(t)) + ">"
  }

  function CloseTagText(t: TagSpec): string
  {
    "</" + t.name + ">"
  }

  /** Html._get_open_and_close_tags: builds the word list with appends, the
      style entries and the attributes in loops, and joins it. */
  method GetOpenAndCloseTags(t: TagSpec) returns (openTag: string, closeTag: string)
    ensures openTag == OpenTagText(t)
    ensures closeTag == CloseTagText(t)
  {
    var content := [t.name];
    if t.id.Some? {
      content := content + ["id=" + t.id.value];
    }
    assert content == [t.name] + (if t.id.Some? then ["id=" + t.id.value] else []);
    ghost var named := content;
    if t.classes.Some? {
      var classStringJoined := Join(" ", t.classes.value);
      content := content + ["class=\"" + classStringJoined + "\""];
    }
    assert content == named + (if t.classes.Some? then ["class=\"" + Join(" ", t.classes.value) + "\""] else []);
    ghost var classed := content;
    if t.styles.Some? {
      var styles := t.styles.value;
      var styleStrings: seq<string> := [];
      var i := 0;
      while i < |styles|
        invariant 0 <= i <= |styles|
        invariant |styleStrings| == i
        invariant forall j :: 0 <= j < i ==> styleStrings[j] == StyleItem(styles[j])
      {
        styleStrings := styleStrings + [StyleItem(styles[i])];
        i := i + 1;
      }
      assert styleStrings == StyleItems(styles);
      var styleStringJoined := Join(" ", styleStrings);
      content := content + ["style=\"" + styleStringJoined + "\""];
    }
    assert content == classed + (if t.styles.Some? then ["style=\"" + Join(" ", StyleItems(t.styles.value)) + "\""] else []);
    assert content == FixedWords(t);
    ghost var fixed := content;
    if t.attributes.Some? {
      var attributes := t.attributes.value;
      ghost var added: seq<string> := [];
      var i := 0;
      while i < |attributes|
        invariant 0 <= i <= |attributes|
        invariant content == fixed + added
        invariant |added| == i
        invariant forall j :: 0 <= j < i ==> added[j] == AttributeItem(attributes[j])
      {
        content := content + [AttributeItem(attributes[i])];
        added := added + [AttributeItem(attributes[i])];
        i := i + 1;
      }
      assert added == AttributeItems(attributes);
    }
    assert content == TagWords(t);
    openTag := "<" + Join(" ", content) + ">";
    closeTag := "</" + t.name + ">";
  }

  /** The open tag starts with `<` immediately followed by the tag name, and
      ends with `>`; the close tag is `</name>`. */
  lemma OpenTagShape(t: TagSpec)
    ensures |OpenTagText(t)| >= |t.name| + 2
    ensures OpenTagText(t)[..|t.name| + 1] == "<" + t.name
    ensures OpenTagText(t)[|OpenTagText(t)| - 1] == '>'
    ensures CloseTagText(t)[..2] == "</" && CloseTagText(t)[2..] == t.name + ">"
  {
    var w := TagWords(t);
    var j := Join(" ", w);
    assert OpenTagText(t) == "<" + j + ">";
    assert ("<" + j + ">")[..|t.name| + 1] == "<" + j[..|t.name|];
  }

  /** With options, the name is followed by a space and the options joined by
      single spaces; without any, the open tag is just `<name>`. */
  lemma OpenTagWords(t: TagSpec)
    ensures |TagWords(t)| == 1 <==> t.id.None? && t.classes.None? && t.styles.None? && (t.attributes.None? || t.attributes.value == [])
    ensures |TagWords(t)| == 1 ==> OpenTagText(t) == "<" + t.name + ">"
    ensures |TagWords(t)| > 1 ==> OpenTagText(t) == "<" + t.name + " " + Join(" ", TagWords(t)[1..]) + ">"
  {
  }
}
