/** The single-file-component descriptor and its re-serialisation
    (`generateSfc`, loaders/autoimport.js:105-129). */
module Sfc {

  import opened Wrappers

  /** An attribute value as the component parser reports it: a bare attribute
      is `true`, any other one carries its string. */
  datatype AttrValue = BareTrue | Quoted(s: string)

  datatype Attr = Attr(name: string, value: AttrValue)

  /** One block of a component: its tag name (`type`), its attributes in
      enumeration order, and its raw content. */
  datatype Block = Block(kind: string, attrs: seq<Attr>, content: string)

  /** What the component parser yields; an absent block is `None`. */
  datatype Descriptor = Descriptor(
    template: Option<Block>,
    script: Option<Block>,
    scriptSetup: Option<Block>,
    styles: seq<Block>,
    customBlocks: seq<Block>)

  /** The text one attribute contributes inside the opening tag: a bare
      attribute unquoted, any other as a quoted string. */
  function AttrFragment(a: Attr): string
  {
    match a.value
    case BareTrue => " " + a.name
    case Quoted(v) => " " + a.name + "=\"" + v + "\""
  }

  /** The serialiser keeps apart a bare attribute and a string-valued one of
      the same name, even one whose value is empty: the quoted fragment is the
      bare one followed by `="`, the value and `"`. */
  lemma BareAndQuotedFragmentsDiffer(n: string, v: string)
    ensures AttrFragment(Attr(n, Quoted(v))) == AttrFragment(Attr(n, BareTrue)) + "=\"" + v + "\""
    ensures AttrFragment(Attr(n, BareTrue)) != AttrFragment(Attr(n, Quoted(v)))
  {
    assert |AttrFragment(Attr(n, Quoted(v)))| == |AttrFragment(Attr(n, BareTrue))| + |v| + 3;
  }

  /** The fragments of `attrs` concatenated in order. */
  function Fragments(attrs: seq<Attr>): string
  {
    if attrs == [] then "" else AttrFragment(attrs[0]) + Fragments(attrs[1..])
  }

  /** The attribute part of an opening tag: the `reduce` starts from a single
      space and appends one fragment per attribute. */
  function AttrText(attrs: seq<Attr>): string
  {
    " " + Fragments(attrs)
  }

  function OpenTag(b: Block): string
  {
    "<" + b.kind + AttrText(b.attrs) + ">"
  }

  function CloseTag(b: Block): string
  {
    "</" + b.kind + ">"
  }

  function BlockText(b: Block): string
  {
    OpenTag(b) + b.content + CloseTag(b)
  }

  /** What one slot of the block list contributes: nothing when the block is
      absent or its type is empty (falsy). */
  function Piece(ob: Option<Block>): string
  {
    if ob.Some? && ob.value.kind != "" then BlockText(ob.value) else ""
  }

  /** The pieces of `blocks` concatenated in order. */
  function Emit(blocks: seq<Option<Block>>): string
  {
    if blocks == [] then "" else Piece(blocks[0]) + Emit(blocks[1..])
  }

  /** Every block of `bs` as a present slot. */
  function Wrap(bs: seq<Block>): seq<Option<Block>>
  {
    seq(|bs|, i requires 0 <= i < |bs| => Some(bs[i]))
  }

  /** The block list in emission order: template, script, scriptSetup, the
      styles, then the custom blocks. */
  function BlockList(d: Descriptor): seq<Option<Block>>
  {
    [d.template, d.script, d.scriptSetup] + Wrap(d.styles) + Wrap(d.customBlocks)
  }

  /** The component text that `generateSfc` produces for `d`. */
  function SfcText(d: Descriptor): string
  {
    Emit(BlockList(d))
  }

  /** A proof hint: string concatenation is associative. */
  lemma AppendAssoc(a: string, b: string, c: string)
    ensures (a + b) + c == a + (b + c)
  {
  }

  /** Emitting a concatenation emits each part in turn. */
  lemma {:induction false} EmitAppend(a: seq<Option<Block>>, b: seq<Option<Block>>)
    ensures Emit(a + b) == Emit(a) + Emit(b)
  {
    if a == [] {
      assert a + b == b;
    } else {
      assert (a + b)[1..] == a[1..] + b;
      EmitAppend(a[1..], b);
      AppendAssoc(Piece(a[0]), Emit(a[1..]), Emit(b));
    }
  }

  lemma {:induction false} FragmentsAppend(a: seq<Attr>, b: seq<Attr>)
    ensures Fragments(a + b) == Fragments(a) + Fragments(b)
  {
    if a == [] {
      assert a + b == b;
    } else {
      assert (a + b)[1..] == a[1..] + b;
      FragmentsAppend(a[1..], b);
      AppendAssoc(AttrFragment(a[0]), Fragments(a[1..]), Fragments(b));
    }
  }

  /** One more attribute adds its fragment at the end. */
  lemma FragmentsSnoc(attrs: seq<Attr>, i: nat)
    requires i < |attrs|
    ensures Fragments(attrs[..i + 1]) == Fragments(attrs[..i]) + AttrFragment(attrs[i])
  {
    assert attrs[..i + 1] == attrs[..i] + [attrs[i]];
    FragmentsAppend(attrs[..i], [attrs[i]]);
  }

  /** One more block adds its piece at the end. */
  lemma EmitSnoc(blocks: seq<Option<Block>>, i: nat)
    requires i < |blocks|
    ensures Emit(blocks[..i + 1]) == Emit(blocks[..i]) + Piece(blocks[i])
  {
    assert blocks[..i + 1] == blocks[..i] + [blocks[i]];
    EmitAppend(blocks[..i], [blocks[i]]);
  }

  /** The attribute part of an opening tag, accumulated as the `reduce` does:
      a bare attribute is written as its name, any other as name="value". */
  method AttrCode(attrs: seq<Attr>) returns (attrCode: string)
    ensures attrCode == AttrText(attrs)
  {
    attrCode := " ";
    for i := 0 to |attrs|
      invariant attrCode == " " + Fragments(attrs[..i])
    {
      var fragment;
      if attrs[i].value == BareTrue {
        fragment := " " + attrs[i].name;
      } else {
        fragment := " " + attrs[i].name + "=\"" + attrs[i].value.s + "\"";
      }
      assert fragment == AttrFragment(attrs[i]);
      FragmentsSnoc(attrs, i);
      AppendAssoc(" ", Fragments(attrs[..i]), fragment);
      attrCode := attrCode + fragment;
    }
    assert attrs[..|attrs|] == attrs;
  }

  /** `generateSfc`: the text of every present block with a non-empty type,
      in emission order. */
  method GenerateSfc(d: Descriptor) returns (result: string)
    ensures result == SfcText(d)
  {
    result := "";
    var blocks := [d.template, d.script, d.scriptSetup] + Wrap(d.styles) + Wrap(d.customBlocks);
    for i := 0 to |blocks|
      invariant result == Emit(blocks[..i])
    {
      EmitSnoc(blocks, i);
      var block := blocks[i];
      if block.Some? && block.value.kind != "" {
        var attrCode := AttrCode(block.value.attrs);
        result := result + ("<" + block.value.kind + attrCode + ">" + block.value.content
                            + ("</" + block.value.kind + ">"));
      }
    }
    assert blocks[..|blocks|] == blocks;
  }

  /** The output is the template's text, then the script's, then the
      scriptSetup's, then every style, then every custom block. */
  lemma SfcTextOrder(d: Descriptor)
    ensures SfcText(d) == Piece(d.template) + (Piece(d.script) + (Piece(d.scriptSetup)
                          + (Emit(Wrap(d.styles)) + Emit(Wrap(d.customBlocks)))))
  {
    var head := [d.template, d.script, d.scriptSetup];
    var styles, customs := Wrap(d.styles), Wrap(d.customBlocks);
    EmitAppend(head + styles, customs);
    EmitAppend(head, styles);
    AppendAssoc(Emit(head), Emit(styles), Emit(customs));
    assert head[1..] == [d.script, d.scriptSetup];
    assert head[1..][1..] == [d.scriptSetup];
    assert head[1..][1..][1..] == [];
    var p1, p2, p3 := Piece(d.template), Piece(d.script), Piece(d.scriptSetup);
    assert Emit(head[1..][1..]) == p3 + "" == p3;
    assert Emit(head[1..]) == p2 + p3;
    assert Emit(head) == p1 + (p2 + p3);
    AppendAssoc(p1, p2 + p3, Emit(styles) + Emit(customs));
    AppendAssoc(p2, p3, Emit(styles) + Emit(customs));
  }

  /** What is emitted after the script block. */
  function AfterScript(d: Descriptor): string
  {
    Piece(d.scriptSetup) + (Emit(Wrap(d.styles)) + Emit(Wrap(d.customBlocks)))
  }

  /** Replacing the script's content changes only the script's content in the
      output: the text before it (the template), the script's tags and
      everything after it are the same for every content `c`, and `c` appears
      verbatim between the tags. */
  lemma ScriptContentReplaced(d: Descriptor, c: string)
    requires d.script.Some? && d.script.value.kind != ""
    ensures SfcText(d.(script := Some(d.script.value.(content := c))))
            == Piece(d.template) + (OpenTag(d.script.value) + c + CloseTag(d.script.value) + AfterScript(d))
  {
    var d' := d.(script := Some(d.script.value.(content := c)));
    SfcTextOrder(d');
  }

  /** Every attribute appears in the opening tag as its fragment, after those
      of the attributes before it and before those of the attributes after it. */
  lemma OpenTagShape(b: Block, k: nat)
    requires k < |b.attrs|
    ensures Fragments(b.attrs) == Fragments(b.attrs[..k]) + AttrFragment(b.attrs[k]) + Fragments(b.attrs[k + 1..])
  {
    assert b.attrs[..k + 1] + b.attrs[k + 1..] == b.attrs;
    FragmentsAppend(b.attrs[..k + 1], b.attrs[k + 1..]);
    FragmentsSnoc(b.attrs, k);
  }
}
