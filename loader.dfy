/** The webpack loader exported by loaders/autoimport.js:12-98, with its path
    helper `transWin` (loaders/autoimport.js:100-103). The component parser,
    the script parser and the code generator are foreign libraries and enter as
    the function values of `Foreign`. */
module AutoImport {

  import opened Wrappers
  import opened Text
  import opened Sfc
  import opened Script

  /** `transWin`: a falsy (empty) path is returned as it is; otherwise
      `str.split("\\").join("/")`. */
  function TransWin(s: string): (r: string)
    ensures s == "" ==> r == s
    ensures |r| == |s|
    ensures forall i :: 0 <= i < |s| ==> r[i] == (if s[i] == '\\' then '/' else s[i])
  {
    if s == "" then s
    else
      SplitJoinReplaces(s, '\\', '/');
      Join(Split(s, '\\'), "/")
  }

  /** The normalised path has no backslash left. */
  lemma TransWinNoBackslash(s: string)
    ensures forall i :: 0 <= i < |TransWin(s)| ==> TransWin(s)[i] != '\\'
  {
  }

  /** Normalising twice is normalising once. */
  lemma TransWinIdempotent(s: string)
    ensures TransWin(TransWin(s)) == TransWin(s)
  {
    var r := TransWin(s);
    var rr := TransWin(r);
    assert |rr| == |r|;
    forall i | 0 <= i < |r|
      ensures rr[i] == r[i]
    {
    }
  }

  /** The allow-list test `names.some(i => resource.indexOf(i + ".vue") >= 0)`. */
  function NeedAddFlag(names: seq<string>, resource: string): (r: bool)
    ensures r <==> exists k :: 0 <= k < |names| && Contains(resource, names[k] + ".vue")
  {
    if names == [] then false
    else IndexOf(resource, names[0] + ".vue") >= 0 || NeedAddFlag(names[1..], resource)
  }

  /** The test is containment, not equality of the file's base name: `Home`
      admits `MyHome.vue` and `Home.vue.bak`. */
  lemma EligibilityIsContainment()
    ensures NeedAddFlag(["Home"], "src/views/MyHome.vue")
    ensures NeedAddFlag(["Home"], "src/Home.vue.bak")
  {
    var names := ["Home"];
    assert names[0] + ".vue" == "Home.vue";
    var v := "src/views/MyHome.vue";
    assert OccursAt(v, "Home.vue", 12) by { assert v[12..20] == "Home.vue"; }
    assert Contains(v, names[0] + ".vue");
    var w := "src/Home.vue.bak";
    assert OccursAt(w, "Home.vue", 4) by { assert w[4..12] == "Home.vue"; }
    assert Contains(w, names[0] + ".vue");
  }

  /** The foreign collaborators: `@vue/compiler-sfc`'s `parse(...).descriptor`,
      `@babel/parser`'s `parse` (`None` for a syntax error) and
      `@babel/generator`. */
  datatype Foreign = Foreign(
    parseSfc: string -> Descriptor,
    parseScript: string -> Option<seq<Stmt>>,
    generate: seq<Stmt> -> string)

  /** What an exception escaping the loader is about. */
  datatype LoaderError =
    | ScriptSyntaxError  // the script parser throws; nothing catches it
    | EmptyProgram       // `bodyPath[0]` is undefined for an empty program

  datatype Outcome = Returned(text: string) | Threw(error: LoaderError)

  /** The descriptor whose script content is replaced by `code`. */
  function WithScriptContent(d: Descriptor, code: string): Descriptor
    requires d.script.Some?
  {
    d.(script := Some(d.script.value.(content := code)))
  }

  /** What the loader does with `context` for the resource path `resource`
      and the allow-list `names`. It changes the text or throws only for an
      eligible path and a component with a plain script block; it throws a
      syntax error exactly when the script does not parse, and fails on an
      empty program exactly when the script parses to no statements. */
  function LoaderResult(context: string, resource: string, names: seq<string>, f: Foreign): (r: Outcome)
    ensures r != Returned(context) ==> NeedAddFlag(names, TransWin(resource)) && f.parseSfc(context).script.Some?
    ensures r == Threw(ScriptSyntaxError)
            <==> (&& NeedAddFlag(names, TransWin(resource))
                  && f.parseSfc(context).script.Some?
                  && f.parseScript(f.parseSfc(context).script.value.content).None?)
    ensures r == Threw(EmptyProgram)
            <==> (&& NeedAddFlag(names, TransWin(resource))
                  && f.parseSfc(context).script.Some?
                  && f.parseScript(f.parseSfc(context).script.value.content) == Some([]))
  {
    if !NeedAddFlag(names, TransWin(resource)) then Returned(context)
    else
      var d := f.parseSfc(context);
      if d.script.None? then Returned(context)
      else
        match f.parseScript(d.script.value.content)
        case None => Threw(ScriptSyntaxError)
        case Some(body) =>
          if body == [] then Threw(EmptyProgram)
          else Returned(SfcText(WithScriptContent(d, f.generate(TransformProgram(body)))))
  }

  /** The loader function. */
  method Loader(context: string, resource: string, names: seq<string>, f: Foreign)
    returns (out: Outcome)
    ensures out == LoaderResult(context, resource, names, f)
  {
    var normalised := TransWin(resource);
    var needAddFlag := NeedAddFlag(names, normalised);
    if !needAddFlag {
      return Returned(context);
    }
    var descriptor := f.parseSfc(context);
    if descriptor.script.None? {
      return Returned(context);
    }
    var parsed := f.parseScript(descriptor.script.value.content);
    if parsed.None? {
      return Threw(ScriptSyntaxError);
    }
    var program := new Program(parsed.value);
    var hasImportHeader := DetectHeaderImport(program.body);
    if !hasImportHeader {
      if program.body == [] {
        return Threw(EmptyProgram);
      }
      program.InsertImportBefore();
      var failures := program.InjectSetupCalls();
    }
    var code := f.generate(program.body);
    descriptor := descriptor.(script := Some(descriptor.script.value.(content := code)));
    var text := GenerateSfc(descriptor);
    out := Returned(text);
  }

  /** A path that no configured name followed by `.vue` occurs in is left alone. */
  lemma IneligibleUnchanged(context: string, resource: string, names: seq<string>, f: Foreign)
    requires forall k :: 0 <= k < |names| ==> !Contains(TransWin(resource), names[k] + ".vue")
    ensures LoaderResult(context, resource, names, f) == Returned(context)
  {
  }

  /** A component without a plain `<script>` block (only `<script setup>`, or
      none) is left alone. */
  lemma MissingScriptUnchanged(context: string, resource: string, names: seq<string>, f: Foreign)
    requires f.parseSfc(context).script.None?
    ensures LoaderResult(context, resource, names, f) == Returned(context)
  {
  }

  /** On success only the script block's content differs from what the
      component parser read: the template before it, the script's own tags and
      every block after it are emitted from the parsed descriptor, and the
      content is the generated code of the transformed program. */
  lemma OnlyScriptContentReplaced(context: string, resource: string, names: seq<string>, f: Foreign)
    requires NeedAddFlag(names, TransWin(resource))
    requires f.parseSfc(context).script.Some? && f.parseSfc(context).script.value.kind != ""
    requires f.parseScript(f.parseSfc(context).script.value.content).Some?
    requires f.parseScript(f.parseSfc(context).script.value.content).value != []
    ensures var d := f.parseSfc(context);
            var body := f.parseScript(d.script.value.content).value;
            LoaderResult(context, resource, names, f)
            == Returned(Piece(d.template) + (OpenTag(d.script.value) + f.generate(TransformProgram(body))
                        + CloseTag(d.script.value) + AfterScript(d)))
  {
    var d := f.parseSfc(context);
    var body := f.parseScript(d.script.value.content).value;
    ScriptContentReplaced(d, f.generate(TransformProgram(body)));
  }

  /** Idempotence: when the parsers read back what was written (the component
      parser yields the descriptor the output was generated from, the script
      parser yields the program the generator printed), running the loader on
      its own output returns that output again. */
  lemma {:induction false} LoaderIdempotent(context: string, resource: string, names: seq<string>, f: Foreign)
    requires NeedAddFlag(names, TransWin(resource))
    requires f.parseSfc(context).script.Some?
    requires f.parseScript(f.parseSfc(context).script.value.content).Some?
    requires f.parseScript(f.parseSfc(context).script.value.content).value != []
    requires var d := f.parseSfc(context);
             var program := TransformProgram(f.parseScript(d.script.value.content).value);
             var code := f.generate(program);
             && f.parseSfc(SfcText(WithScriptContent(d, code))) == WithScriptContent(d, code)
             && f.parseScript(code) == Some(program)
    ensures LoaderResult(context, resource, names, f).Returned?
    ensures var once := LoaderResult(context, resource, names, f).text;
            LoaderResult(once, resource, names, f) == Returned(once)
  {
    var d := f.parseSfc(context);
    var body := f.parseScript(d.script.value.content).value;
    var program := TransformProgram(body);
    var code := f.generate(program);
    TransformIdempotent(body);
    assert program != [];
    assert WithScriptContent(WithScriptContent(d, code), code) == WithScriptContent(d, code);
  }
}
