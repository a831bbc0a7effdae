/** The `<script>` block as a program of top-level statements, and the three
    things the loader's `Program` visitor does to it
    (loaders/autoimport.js:32-89): detect an existing header import, prepend
    the import, and splice a `useHeader()` call into every `setup` method of
    the default-exported object. */
module Script {

  import opened Wrappers
  import opened Text

  /** One property of the default-exported object. `keyName` is the key's
      identifier name (`None` for a key without one, such as a string-literal
      or spread key). `body` is the statement list of a method's block body;
      it is `None` when the property has no `body.body`, as a plain
      `setup: function () {}` property does. */
  datatype Property = Property(keyName: Option<string>, body: Option<seq<Stmt>>)

  /** A statement. `ExportDefault(None)` is a default export whose
      declaration has no `properties` (anything but an object literal). */
  datatype Stmt =
    | Import(specifiers: seq<string>, source: string)
    | ExportDefault(properties: Option<seq<Property>>)
    | Return
    | ExprCall(callee: string)
    | Other

  const ExecuteName: string := "useHeader"
  const FilePath: string := "/hooks/header"

  /** `import useHeader from "@/hooks/header"`. */
  function HeaderImport(): Stmt
  {
    Import([ExecuteName], "@" + FilePath)
  }

  /** `useHeader();` */
  function HeaderCall(): Stmt
  {
    ExprCall(ExecuteName)
  }

  /** The detection test on one statement: an import whose source mentions
      `/hooks/header` first at a positive index. */
  predicate IsHeaderImport(s: Stmt)
  {
    s.Import? && IndexOf(s.source, FilePath) > 0
  }

  predicate ImportsHeader(body: seq<Stmt>)
  {
    exists k :: 0 <= k < |body| && IsHeaderImport(body[k])
  }

  /** The detection loop over the top-level statements, leaving at the first hit. */
  method DetectHeaderImport(body: seq<Stmt>) returns (hasImportHeader: bool)
    ensures hasImportHeader <==> ImportsHeader(body)
  {
    hasImportHeader := false;
    var i := 0;
    while i < |body|
      invariant 0 <= i <= |body|
      invariant !hasImportHeader
      invariant forall k :: 0 <= k < i ==> !IsHeaderImport(body[k])
    {
      var stmt := body[i];
      if stmt.Import? {
        if IndexOf(stmt.source, FilePath) > 0 {
          hasImportHeader := true;
          break;
        }
      }
      i := i + 1;
    }
  }

  /** Detection means: some import's source contains `/hooks/header`, and
      does not start with it (an occurrence at index 0 is the first one, and
      the test asks for a positive index). */
  lemma DetectionMeaning(body: seq<Stmt>)
    ensures ImportsHeader(body) <==>
              exists k :: 0 <= k < |body| && body[k].Import? && Contains(body[k].source, FilePath)
                          && !OccursAt(body[k].source, FilePath, 0)
  {
    forall k | 0 <= k < |body| && body[k].Import?
      ensures IsHeaderImport(body[k]) <==>
                Contains(body[k].source, FilePath) && !OccursAt(body[k].source, FilePath, 0)
    {
      IndexOfPositive(body[k].source, FilePath);
    }
  }

  /** The inserted import is itself detected: its source has `/hooks/header`
      at index 1. */
  lemma HeaderImportDetected()
    ensures IndexOf(HeaderImport().source, FilePath) == 1
    ensures IsHeaderImport(HeaderImport())
  {
    var src := HeaderImport().source;
    assert src[1..1 + |FilePath|] == FilePath;
    assert OccursAt(src, FilePath, 1);
    assert !OccursAt(src, FilePath, 0) by {
      assert src[0] == '@' && FilePath[0] == '/';
    }
  }

  /** A source that starts with `/hooks/header` is not detected. */
  lemma LeadingSlashSourceNotDetected(specifiers: seq<string>)
    ensures !IsHeaderImport(Import(specifiers, FilePath))
  {
    assert OccursAt(FilePath, FilePath, 0);
  }

  /** The first return statement of `b` is at index `i`. */
  predicate FirstReturnAt(b: seq<Stmt>, i: int)
  {
    0 <= i < |b| && b[i].Return? && forall j :: 0 <= j < i ==> !b[j].Return?
  }

  /** `findIndex` of the first return statement, or -1. */
  function FindReturn(b: seq<Stmt>): (r: int)
    ensures -1 <= r < |b|
    ensures r >= 0 ==> b[r].Return? && forall k :: 0 <= k < r ==> !b[k].Return?
    ensures r == -1 <==> forall k :: 0 <= k < |b| ==> !b[k].Return?
  {
    if b == [] then -1
    else if b[0].Return? then 0
    else
      var r := FindReturn(b[1..]);
      if r == -1 then -1 else r + 1
  }

  /** The position `Array.prototype.splice` inserts at for a given start: a
      negative start counts from the end (and stops at 0), a start past the end
      is the end. */
  function SpliceStart(len: nat, start: int): (k: nat)
    ensures k <= len
  {
    if start < 0 then (if len + start < 0 then 0 else len + start)
    else if start > len then len
    else start
  }

  /** `b.splice(start, 0, x)`: `x` inserted at the splice position. */
  function SpliceInsert(b: seq<Stmt>, start: int, x: Stmt): (r: seq<Stmt>)
    ensures |r| == |b| + 1
    ensures var k := SpliceStart(|b|, start);
            && r[k] == x
            && (forall i :: 0 <= i < k ==> r[i] == b[i])
            && (forall i :: k <= i < |b| ==> r[i + 1] == b[i])
  {
    var k := SpliceStart(|b|, start);
    b[..k] + [x] + b[k..]
  }

  /** `splice(-1, 0, x)`, what a `setup` body without a return gets: `x` goes
      before the last element, not at the end, and is the only element of an
      empty array. */
  lemma SpliceMinusOne(b: seq<Stmt>, x: Stmt)
    ensures b != [] ==> SpliceInsert(b, -1, x) == b[..|b| - 1] + [x] + b[|b| - 1..]
    ensures b == [] ==> SpliceInsert(b, -1, x) == [x]
  {
  }

  /** A setup body with `useHeader()` spliced in at the index `findIndex`
      returns: before the first return when there is one; otherwise the index
      is -1, which puts the call before the last statement, or first in an
      empty body. */
  function WithSetupCall(b: seq<Stmt>): (r: seq<Stmt>)
    ensures |r| == |b| + 1
    ensures forall i :: FirstReturnAt(b, i) ==> r == b[..i] + [HeaderCall()] + b[i..]
    ensures ((forall i :: 0 <= i < |b| ==> !b[i].Return?) && b != [])
              ==> r == b[..|b| - 1] + [HeaderCall()] + b[|b| - 1..]
    ensures b == [] ==> r == [HeaderCall()]
  {
    SpliceInsert(b, FindReturn(b), HeaderCall())
  }

  /** Whatever the placement, the call goes in exactly once and every
      original statement keeps its relative order. */
  lemma SetupCallInsertedOnce(b: seq<Stmt>)
    ensures exists k :: 0 <= k <= |b| && WithSetupCall(b) == b[..k] + [HeaderCall()] + b[k..]
  {
    var k := SpliceStart(|b|, FindReturn(b));
    assert WithSetupCall(b) == b[..k] + [HeaderCall()] + b[k..];
  }

  /** `setup() { return {} }` becomes `setup() { useHeader(); return {} }`. */
  lemma PlacementBeforeReturn()
    ensures WithSetupCall([Return]) == [HeaderCall(), Return]
    ensures WithSetupCall([Other, Return, Other]) == [Other, HeaderCall(), Return, Other]
  {
    var b := [Other, Return, Other];
    assert FindReturn(b) == 1;
    assert b[..1] + [HeaderCall()] + b[1..] == [Other, HeaderCall(), Return, Other];
  }

  /** Without a return the call lands before the last statement, not first:
      `{ a; b }` becomes `{ a; useHeader(); b }`. */
  lemma PlacementWithoutReturn()
    ensures WithSetupCall([Other]) == [HeaderCall(), Other]
    ensures WithSetupCall([Other, ExprCall("f")]) == [Other, HeaderCall(), ExprCall("f")]
  {
  }

  /** One property after the visitor: a property keyed `setup` with a body
      gets the call; one without a body throws inside the `try` and is left as
      it was; any other property is untouched. */
  function InjectProperty(p: Property): Property
  {
    if p.keyName == Some("setup") && p.body.Some? then p.(body := Some(WithSetupCall(p.body.value)))
    else p
  }

  /** The visitor keeps a property's key; it leaves anything but a `setup`
      property with a body as it was; and it keeps a body present, giving a
      `setup` body exactly one statement more. */
  lemma InjectPropertyKeeps(p: Property)
    ensures InjectProperty(p).keyName == p.keyName
    ensures p.keyName != Some("setup") || p.body.None? ==> InjectProperty(p) == p
    ensures p.body.Some? ==> InjectProperty(p).body.Some?
                             && |InjectProperty(p).body.value| == |p.body.value| + (if p.keyName == Some("setup") then 1 else 0)
  {
  }

  /** 1 when the property is a `setup` property whose call insertion throws. */
  function PropertyFailure(p: Property): nat
  {
    if p.keyName == Some("setup") && p.body.None? then 1 else 0
  }

  function PropertyFailures(props: seq<Property>): nat
  {
    if props == [] then 0 else PropertyFailures(props[..|props| - 1]) + PropertyFailure(props[|props| - 1])
  }

  /** The properties of an object-literal default export that has any. */
  predicate HasProperties(s: Stmt)
  {
    s.ExportDefault? && s.properties.Some? && |s.properties.value| > 0
  }

  function InjectedProperties(props: seq<Property>): seq<Property>
  {
    seq(|props|, j requires 0 <= j < |props| => InjectProperty(props[j]))
  }

  /** One top-level statement after the visitor. */
  function InjectStmt(s: Stmt): Stmt
  {
    if HasProperties(s) then ExportDefault(Some(InjectedProperties(s.properties.value))) else s
  }

  /** The `try` block for one `setup` body: `findIndex` for the first return,
      then `splice` of the `useHeader()` call at that index. It only splits
      the proof of `InjectProperties` into steps; the placement it computes is
      stated by `WithSetupCall`. */
  method SpliceSetupCall(b: seq<Stmt>) returns (r: seq<Stmt>)
    ensures r == WithSetupCall(b)
  {
    var insertIdx := FindReturn(b);
    r := SpliceInsert(b, insertIdx, HeaderCall());
  }

  /** The loop over the properties of one default-exported object: each
      `setup` property with a body gets the call at the `findIndex` position;
      `failures` counts the `setup` properties whose insertion threw. */
  method InjectProperties(original: seq<Property>) returns (props: seq<Property>, failures: nat)
    ensures |props| == |original|
    ensures forall q :: 0 <= q < |props| ==>
              (original[q].keyName == Some("setup") && original[q].body.Some? ==>
                 props[q] == original[q].(body := Some(WithSetupCall(original[q].body.value))))
              && (original[q].keyName != Some("setup") || original[q].body.None? ==> props[q] == original[q])
    ensures failures == PropertyFailures(original)
  {
    props := original;
    failures := 0;
    var j := 0;
    while j < |props|
      invariant 0 <= j <= |props| == |original|
      invariant forall q :: 0 <= q < j ==> props[q] == InjectProperty(original[q])
      invariant forall q :: j <= q < |props| ==> props[q] == original[q]
      invariant failures == PropertyFailures(original[..j])
    {
      assert original[..j + 1][..j] == original[..j];
      var property := props[j];
      assert property == original[j];
      if property.keyName == Some("setup") {
        if property.body.Some? {
          var spliced := SpliceSetupCall(property.body.value);
          assert property.(body := Some(spliced)) == InjectProperty(original[j]);
          props := props[j := property.(body := Some(spliced))];
        } else {
          failures := failures + 1;
        }
      }
      j := j + 1;
    }
    assert original[..|original|] == original;
  }

  function StmtFailures(s: Stmt): nat
  {
    if HasProperties(s) then PropertyFailures(s.properties.value) else 0
  }

  function SetupFailures(body: seq<Stmt>): nat
  {
    if body == [] then 0 else SetupFailures(body[..|body| - 1]) + StmtFailures(body[|body| - 1])
  }

  /** The program body after the setup-call loop. */
  function SetupCallsInjected(body: seq<Stmt>): seq<Stmt>
  {
    seq(|body|, k requires 0 <= k < |body| => InjectStmt(body[k]))
  }

  /** The program body after the `Program` visitor: unchanged when the header
      import is detected; otherwise the import first, then every original
      statement in order, default exports with their setup calls spliced in. */
  function TransformProgram(body: seq<Stmt>): (r: seq<Stmt>)
    ensures ImportsHeader(body) ==> r == body
    ensures !ImportsHeader(body) ==>
              |r| == |body| + 1 && r[0] == HeaderImport()
              && forall k :: 0 <= k < |body| ==> r[k + 1] == InjectStmt(body[k])
  {
    if ImportsHeader(body) then body else SetupCallsInjected([HeaderImport()] + body)
  }

  /** Only object-literal default exports with properties change: every other
      original statement, a default export of anything but an object literal
      included, is carried over as it was, one place further down. */
  lemma OtherStatementsKept(body: seq<Stmt>, k: nat)
    requires !ImportsHeader(body) && k < |body| && !HasProperties(body[k])
    ensures TransformProgram(body)[k + 1] == body[k]
  {
  }

  /** Every `setup` property with a body, of every object-literal default
      export, gets exactly one call, placed as `WithSetupCall` says; the other
      properties and their number are unchanged. */
  lemma EverySetupInjected(body: seq<Stmt>, k: nat, j: nat)
    requires !ImportsHeader(body) && k < |body| && HasProperties(body[k])
    requires j < |body[k].properties.value|
    ensures var s := TransformProgram(body)[k + 1];
            && HasProperties(s) && |s.properties.value| == |body[k].properties.value|
            && var p, q := body[k].properties.value[j], s.properties.value[j];
               q.keyName == p.keyName
               && (p.keyName == Some("setup") && p.body.Some? ==> q.body == Some(WithSetupCall(p.body.value)))
               && (p.keyName != Some("setup") || p.body.None? ==> q == p)
  {
  }

  /** Re-running the visitor on its own output changes nothing: the import it
      added is detected. */
  lemma {:induction false} TransformIdempotent(body: seq<Stmt>)
    ensures TransformProgram(TransformProgram(body)) == TransformProgram(body)
  {
    var r := TransformProgram(body);
    if !ImportsHeader(body) {
      HeaderImportDetected();
      assert IsHeaderImport(r[0]);
    }
  }

  /** A header import at a leading-slash path is not detected, so a second
      header import is added in front of it. */
  lemma LeadingSlashImportDuplicated()
    ensures TransformProgram([Import([ExecuteName], FilePath)])
            == [HeaderImport(), Import([ExecuteName], FilePath)]
  {
    LeadingSlashSourceNotDetected([ExecuteName]);
  }

  /** Any import whose source has `/hooks/header` first at a positive index
      blocks both injections, even one that imports something else from
      another module: nothing then imports or calls `useHeader`. */
  lemma UnrelatedImportBlocksInjection()
    ensures var body := [Import(["other"], "./hooks/headerbar"),
                         ExportDefault(Some([Property(Some("setup"), Some([Return]))]))];
            TransformProgram(body) == body
  {
    var src := "./hooks/headerbar";
    assert src[1..1 + |FilePath|] == FilePath;
    assert OccursAt(src, FilePath, 1);
    assert !OccursAt(src, FilePath, 0) by {
      assert src[0] == '.' && FilePath[0] == '/';
    }
    var body := [Import(["other"], src),
                 ExportDefault(Some([Property(Some("setup"), Some([Return]))]))];
    assert IsHeaderImport(body[0]);
  }

  /** The program of a script as the loader mutates it in place. */
  class Program {
    var body: seq<Stmt>

    constructor (body: seq<Stmt>)
      ensures this.body == body
    {
      this.body := body;
    }

    /** `bodyPath[0].insertBefore(importDeclaration)`. */
    method InsertImportBefore()
      requires body != []
      modifies this
      ensures body == [HeaderImport()] + old(body)
    {
      body := [HeaderImport()] + body;
    }

    /** The loop over the default exports and their properties; `failures`
        counts the setup properties whose insertion threw and was logged. */
    method InjectSetupCalls() returns (failures: nat)
      modifies this
      ensures body == SetupCallsInjected(old(body))
      ensures failures == SetupFailures(old(body))
    {
      failures := 0;
      var i := 0;
      while i < |body|
        invariant 0 <= i <= |body| == |old(body)|
        invariant forall k :: 0 <= k < i ==> body[k] == InjectStmt(old(body)[k])
        invariant forall k :: i <= k < |body| ==> body[k] == old(body)[k]
        invariant failures == SetupFailures(old(body)[..i])
      {
        var stmt := body[i];
        assert old(body)[..i + 1][..i] == old(body)[..i];
        if stmt.ExportDefault? && stmt.properties.Some? && |stmt.properties.value| > 0 {
          var props, propertyFailures := InjectProperties(stmt.properties.value);
          assert props == InjectedProperties(stmt.properties.value);
          failures := failures + propertyFailures;
          body := body[i := ExportDefault(Some(props))];
        }
        i := i + 1;
      }
      assert old(body)[..|old(body)|] == old(body);
    }
  }
}
