/**
 * generateTsxType: reads each "name,type" record back, translates the type
 * and formats one declaration block:
 *   export type N = {\n  then  \t<name>: <type>\n  per field  then  }
 */
module Emitter {
  import opened Wrappers
  import opened GoStd
  import opened Translator

  /** One line of a declaration: a field name and its TypeScript type. */
  datatype TsField = TsField(name: string, tsType: string)

  function Header(structName: string): string
  {
    "export type " + structName + " = {\n"
  }

  /** fmt.Sprintf("\t%v: %v\n", name, type). */
  function FieldLine(f: TsField): string
  {
    "\t" + f.name + ": " + f.tsType + "\n"
  }

  /** The field lines, in order. */
  function Body(fs: seq<TsField>): string
  {
    if fs == [] then [] else Body(fs[..|fs| - 1]) + FieldLine(fs[|fs| - 1])
  }

  /** The whole block generateTsxType returns. */
  function Render(structName: string, fs: seq<TsField>): string
  {
    Header(structName) + Body(fs) + "}"
  }

  /**
   * One turn of the loop: split the record on ',' and translate values[1];
   * a record with no comma has no values[1], which panics in Go.
   */
  function ParseRecord(record: string): Result<TsField, Panic>
  {
    var values := Split(record, ',');
    if |values| < 2 then Err(IndexOutOfRange(record))
    else
      match ConvertGoTypeToTsxType(values[1])
      case Ok(t) => Ok(TsField(values[0], t))
      case Err(e) => Err(e)
  }

  /** All records in order, stopping at the first panic. */
  function TranslateRecords(records: seq<string>): Result<seq<TsField>, Panic>
  {
    if records == [] then Ok([])
    else
      match TranslateRecords(records[..|records| - 1])
      case Err(e) => Err(e)
      case Ok(fs) =>
        match ParseRecord(records[|records| - 1])
        case Err(e) => Err(e)
        case Ok(f) => Ok(fs + [f])
  }

  /** The outcome of generateTsxType: the block, or the first panic. */
  function Declaration(structName: string, records: seq<string>): Result<string, Panic>
  {
    match TranslateRecords(records)
    case Ok(fs) => Ok(Render(structName, fs))
    case Err(e) => Err(e)
  }

  /** generateTsxType(structname, fields), with its string accumulator. */
  method GenerateTsxType(structName: string, fields: seq<string>) returns (r: Result<string, Panic>)
    ensures r == Declaration(structName, fields)
  {
    var value := "export type " + structName + " = {\n";
    ghost var fs: seq<TsField> := [];
    for i := 0 to |fields|
      invariant TranslateRecords(fields[..i]) == Ok(fs)
      invariant value == Header(structName) + Body(fs)
    {
      TranslateStep(fields, i);
      var values := Split(fields[i], ',');
      if |values| < 2 {
        FailureIsFinal(fields, i + 1);
        return Err(IndexOutOfRange(fields[i]));
      }
      var t := ConvertGoTypeToTsxType(values[1]);
      if t.Err? {
        FailureIsFinal(fields, i + 1);
        return Err(t.error);
      }
      var line := "\t" + values[0] + ": " + t.value + "\n";
      ghost var f := TsField(values[0], t.value);
      BodyStep(fs, f);
      AppendAssoc(Header(structName), Body(fs), FieldLine(f));
      fs := fs + [f];
      value := value + line;
    }
    assert fields[..|fields|] == fields;
    value := value + "}";
    r := Ok(value);
  }

  /** One record more: the translation of a prefix grows by that record's line, or stops at its panic. */
  lemma TranslateStep(rs: seq<string>, i: nat)
    requires i < |rs| && TranslateRecords(rs[..i]).Ok?
    ensures TranslateRecords(rs[..i + 1]) ==
      match ParseRecord(rs[i])
      case Ok(f) => Ok(TranslateRecords(rs[..i]).value + [f])
      case Err(e) => Err(e)
  {
    assert rs[..i + 1][..i] == rs[..i];
  }

  lemma BodyStep(fs: seq<TsField>, f: TsField)
    ensures Body(fs + [f]) == Body(fs) + FieldLine(f)
  {
    assert (fs + [f])[..|fs|] == fs;
  }

  /** Once a prefix of the records has panicked, the whole run has that panic. */
  lemma {:induction false} FailureIsFinal(rs: seq<string>, j: nat)
    requires j <= |rs| && TranslateRecords(rs[..j]).Err?
    ensures TranslateRecords(rs) == TranslateRecords(rs[..j])
    decreases |rs| - j
  {
    if j < |rs| {
      assert rs[..j + 1][..j] == rs[..j];
      FailureIsFinal(rs, j + 1);
    } else {
      assert rs[..j] == rs;
    }
  }

  /** The records translate exactly when each does, and then one line per record, in order. */
  lemma {:induction false} TranslateRecordsSpec(rs: seq<string>)
    ensures TranslateRecords(rs).Ok? <==> forall i :: 0 <= i < |rs| ==> ParseRecord(rs[i]).Ok?
    ensures TranslateRecords(rs).Ok? ==>
      && |TranslateRecords(rs).value| == |rs|
      && forall i :: 0 <= i < |rs| ==> TranslateRecords(rs).value[i] == ParseRecord(rs[i]).value
  {
    if rs != [] {
      var init := rs[..|rs| - 1];
      TranslateRecordsSpec(init);
      assert forall i :: 0 <= i < |init| ==> init[i] == rs[i];
    }
  }

  /** The panic reported is that of the first record that panics. */
  lemma {:induction false} FirstFailure(rs: seq<string>, k: nat)
    requires k < |rs| && ParseRecord(rs[k]).Err?
    requires forall j :: 0 <= j < k ==> ParseRecord(rs[j]).Ok?
    ensures TranslateRecords(rs) == Err(ParseRecord(rs[k]).error)
  {
    var pre := rs[..k + 1];
    assert pre[..k] == rs[..k];
    TranslateRecordsSpec(rs[..k]);
    FailureIsFinal(rs, k + 1);
  }

  /** A field's line without its line break. */
  function FieldText(f: TsField): string
  {
    "\t" + f.name + ": " + f.tsType
  }

  /** The texts of the field lines, in order. */
  function FieldTexts(fs: seq<TsField>): (r: seq<string>)
  {
    if fs == [] then [] else FieldTexts(fs[..|fs| - 1]) + [FieldText(fs[|fs| - 1])]
  }

  predicate Plain(s: string) { '\n' !in s }

  lemma {:induction false} BodySplit(fs: seq<TsField>, s: string)
    requires forall i :: 0 <= i < |fs| ==> Plain(fs[i].name) && Plain(fs[i].tsType)
    ensures Split(Body(fs) + s, '\n') == FieldTexts(fs) + Split(s, '\n')
  {
    if fs == [] {
      assert Body(fs) + s == s;
    } else {
      var init := fs[..|fs| - 1];
      var f := fs[|fs| - 1];
      var line := FieldText(f);
      assert '\n' !in line;
      assert Body(fs) + s == Body(init) + (line + ['\n'] + s);
      BodySplit(init, line + ['\n'] + s);
      SplitCons(line, s, '\n');
    }
  }

  /** The declaration's first line is the header without its newline. */
  lemma RenderHead(structName: string, fs: seq<TsField>)
    requires Plain(structName)
    ensures Split(Render(structName, fs), '\n')
      == ["export type " + structName + " = {"] + Split(Body(fs) + "}", '\n')
  {
    var head := "export type " + structName + " = {";
    var rest := Body(fs) + "}";
    assert Render(structName, fs) == head + ['\n'] + rest;
    assert '\n' !in head;
    SplitCons(head, rest, '\n');
  }

  /**
   * A block is its header line, one line per field in order, and the closing
   * brace, when no name or type holds a line break.
   */
  lemma RenderLines(structName: string, fs: seq<TsField>)
    requires Plain(structName)
    requires forall i :: 0 <= i < |fs| ==> Plain(fs[i].name) && Plain(fs[i].tsType)
    ensures Split(Render(structName, fs), '\n')
      == ["export type " + structName + " = {"] + (FieldTexts(fs) + ["}"])
  {
    RenderHead(structName, fs);
    BodyLines(fs, "}");
  }

  /** The body followed by a newline-free tail splits into the field lines and that tail. */
  lemma BodyLines(fs: seq<TsField>, tail: string)
    requires '\n' !in tail
    requires forall i :: 0 <= i < |fs| ==> Plain(fs[i].name) && Plain(fs[i].tsType)
    ensures Split(Body(fs) + tail, '\n') == FieldTexts(fs) + [tail]
  {
    BodySplit(fs, tail);
    SplitNoSep(tail, '\n');
  }
}
