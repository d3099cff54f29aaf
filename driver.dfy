/**
 * ToTsx's loop: for each struct of a list, extract its records, generate its
 * declaration and print it followed by a blank line. A panic while generating
 * one declaration ends the run; what was printed before it stays printed.
 */
module Driver {
  import opened Wrappers
  import opened GoStd
  import opened Reflect
  import opened Extractor
  import opened Emitter
  import opened Translator

  /** generateTsxType(extractStruct(def)): the block for one struct, or its panic. */
  function DeclarationOf(def: StructDef): Result<string, Panic>
  {
    Declaration(def.name, Records(def.fields))
  }

  /** What a run leaves behind: everything printed to stdout, and the panic that ended it, if any. */
  datatype RunResult = RunResult(output: string, failure: Option<Panic>)

  /** Each block as fmt.Printf("%v\n\n", block) writes it, in order. */
  function Printed(blocks: seq<string>): string
  {
    if blocks == [] then [] else Printed(blocks[..|blocks| - 1]) + blocks[|blocks| - 1] + "\n\n"
  }

  /** The outcome of each struct of the list, in order. */
  function Outcomes(defs: seq<StructDef>): seq<Result<string, Panic>>
  {
    seq(|defs|, i requires 0 <= i < |defs| => DeclarationOf(defs[i]))
  }

  /** The run over a list of per-struct outcomes, one at a time, stopping at the first panic. */
  function RunOf(rs: seq<Result<string, Panic>>): RunResult
  {
    if rs == [] then RunResult([], None)
    else
      var before := RunOf(rs[..|rs| - 1]);
      if before.failure.Some? then before
      else
        match rs[|rs| - 1]
        case Ok(block) => RunResult(before.output + block + "\n\n", None)
        case Err(e) => RunResult(before.output, Some(e))
  }

  /** What ToTsx's loop does with the structs defs. */
  function RunSpec(defs: seq<StructDef>): RunResult
  {
    RunOf(Outcomes(defs))
  }

  /** The blocks of outcomes that all succeeded, in order. */
  function Blocks(rs: seq<Result<string, Panic>>): (r: seq<string>)
    requires forall i :: 0 <= i < |rs| ==> rs[i].Ok?
    ensures |r| == |rs|
    ensures forall i :: 0 <= i < |rs| ==> r[i] == rs[i].value
  {
    if rs == [] then []
    else Blocks(rs[..|rs| - 1]) + [rs[|rs| - 1].value]
  }

  /** The loop of ToTsx over an arbitrary list of structs. */
  method Run(defs: seq<StructDef>) returns (out: string, failure: Option<Panic>)
    ensures RunResult(out, failure) == RunSpec(defs)
  {
    ghost var rs := Outcomes(defs);
    assert |rs| == |defs|;
    out := [];
    failure := None;
    for i := 0 to |defs|
      invariant RunOf(rs[..i]) == RunResult(out, None)
    {
      assert rs[..i + 1][..i] == rs[..i];
      var values, name := ExtractStruct(defs[i]);
      var val2 := GenerateTsxType(name, values);
      assert val2 == DeclarationOf(defs[i]) by {
        assert values == Records(defs[i].fields);
      }
      assert val2 == rs[i];
      if val2.Err? {
        failure := Some(val2.error);
        PanicIsFinal(rs, i + 1);
        return;
      }
      out := out + val2.value + "\n\n";
    }
    assert rs[..|defs|] == rs;
  }

  /** Once a run has panicked, later structs change nothing. */
  lemma {:induction false} PanicIsFinal(rs: seq<Result<string, Panic>>, j: nat)
    requires j <= |rs| && RunOf(rs[..j]).failure.Some?
    ensures RunOf(rs) == RunOf(rs[..j])
  {
    if j < |rs| {
      var init := rs[..|rs| - 1];
      assert init[..j] == rs[..j];
      PanicIsFinal(init, j);
    } else {
      assert rs[..j] == rs;
    }
  }

  /** Printing only appends: the output after a prefix of the list is a prefix of the final output. */
  lemma {:induction false} OutputGrows(rs: seq<Result<string, Panic>>, j: nat)
    requires j <= |rs|
    ensures RunOf(rs[..j]).output <= RunOf(rs).output
  {
    if j < |rs| {
      var init := rs[..|rs| - 1];
      assert init[..j] == rs[..j];
      OutputGrows(init, j);
    } else {
      assert rs[..j] == rs;
    }
  }

  /** A run completes exactly when every struct translates, and then prints every block in order. */
  lemma {:induction false} RunCompletes(rs: seq<Result<string, Panic>>)
    ensures RunOf(rs).failure.None? <==> forall i :: 0 <= i < |rs| ==> rs[i].Ok?
    ensures RunOf(rs).failure.None? ==> RunOf(rs).output == Printed(Blocks(rs))
  {
    if rs != [] {
      var init := rs[..|rs| - 1];
      RunCompletes(init);
      assert forall i :: 0 <= i < |init| ==> rs[i] == init[i];
      if RunOf(rs).failure.None? {
        assert Blocks(rs)[..|rs| - 1] == Blocks(init);
      }
    }
  }

  /**
   * The first struct that panics ends the run with its panic; the output is
   * exactly the blocks of the structs before it, and nothing of it or after it.
   */
  lemma {:induction false} RunStopsAtFirstFailure(rs: seq<Result<string, Panic>>, k: nat)
    requires k < |rs| && rs[k].Err?
    requires forall j :: 0 <= j < k ==> rs[j].Ok?
    ensures RunOf(rs).failure == Some(rs[k].error)
    ensures RunOf(rs).output == Printed(Blocks(rs[..k]))
  {
    var pre := rs[..k];
    assert forall j :: 0 <= j < k ==> pre[j] == rs[j];
    RunCompletes(pre);
    assert rs[..k + 1][..k] == pre;
    PanicIsFinal(rs, k + 1);
  }

  // ---------------------------------------------------------------------------
  // From a struct's field table to its block

  /** A field whose record reads back and whose type has a translation. */
  predicate Translatable(f: Field)
  {
    ',' !in EmittedName(f) && WellFormed(f.typ) && TranslateTyped(f.typ).Ok?
  }

  /** The line a translatable field becomes: its emitted name and its TypeScript type. */
  function TsFieldOf(f: Field): TsField
    requires Translatable(f)
  {
    TsField(EmittedName(f), TranslateTyped(f.typ).value)
  }

  function TsFieldsOf(fs: seq<Field>): (r: seq<TsField>)
    requires AllTranslatable(fs)
    ensures |r| == |fs|
  {
    seq(|fs|, i requires 0 <= i < |fs| => TsFieldOf(fs[i]))
  }

  /** A translatable field's record goes through generateTsxType's loop as its own line. */
  lemma FieldReadsBack(f: Field)
    requires Translatable(f)
    ensures ParseRecord(Record(f)) == Ok(TsFieldOf(f))
  {
    TypeStringPlain(f.typ);
    RecordRoundTrip(f);
    ConvertMatchesTyped(f.typ);
  }

  /** A field with a well-formed type that has no translation panics with that type's panic. */
  lemma FieldPanics(f: Field)
    requires ',' !in EmittedName(f) && WellFormed(f.typ) && TranslateTyped(f.typ).Err?
    ensures ParseRecord(Record(f)) == Err(TranslateTyped(f.typ).error)
  {
    TypeStringPlain(f.typ);
    RecordRoundTrip(f);
    ConvertMatchesTyped(f.typ);
  }

  /** A struct whose emitted fields all translate yields the block of exactly those fields, in order. */
  lemma DeclarationOfGood(def: StructDef)
    requires StructTranslates(def)
    ensures DeclarationOf(def) == Ok(BlockOf(def))
  {
    var ks := Kept(def.fields);
    var rs := Records(def.fields);
    forall i | 0 <= i < |rs|
      ensures ParseRecord(rs[i]) == Ok(TsFieldOf(ks[i]))
    {
      FieldReadsBack(ks[i]);
    }
    TranslateRecordsSpec(rs);
    assert TranslateRecords(rs).value == TsFieldsOf(ks);
  }

  /** The first emitted field without a translation decides the struct's panic. */
  lemma DeclarationOfPanics(def: StructDef, k: nat)
    requires k < |Kept(def.fields)|
    requires forall j :: 0 <= j < k ==> Translatable(Kept(def.fields)[j])
    requires var f := Kept(def.fields)[k];
      ',' !in EmittedName(f) && WellFormed(f.typ) && TranslateTyped(f.typ).Err?
    ensures DeclarationOf(def) == Err(TranslateTyped(Kept(def.fields)[k].typ).error)
  {
    var ks := Kept(def.fields);
    var rs := Records(def.fields);
    forall j | 0 <= j < k
      ensures ParseRecord(rs[j]).Ok?
    {
      FieldReadsBack(ks[j]);
    }
    FieldPanics(ks[k]);
    FirstFailure(rs, k);
  }

  /** Every field a struct emits translates. */
  predicate StructTranslates(def: StructDef)
  {
    AllTranslatable(Kept(def.fields))
  }

  predicate AllTranslatable(fs: seq<Field>)
  {
    forall i :: 0 <= i < |fs| ==> Translatable(fs[i])
  }

  /** The block of a struct whose emitted fields all translate. */
  function BlockOf(def: StructDef): string
    requires StructTranslates(def)
  {
    Render(def.name, TsFieldsOf(Kept(def.fields)))
  }

  /** Checking the declared fields that are not tagged json:"-" is enough. */
  lemma MembersTranslate(def: StructDef)
    requires forall f :: f in def.fields && !Skipped(f) ==> Translatable(f)
    ensures StructTranslates(def)
  {
    var ks := Kept(def.fields);
    forall j | 0 <= j < |ks|
      ensures Translatable(ks[j])
    {
      KeptExactly(def.fields, ks[j]);
    }
  }

  /** The blocks of structs whose emitted fields all translate, in order. */
  function BlocksOf(defs: seq<StructDef>): seq<string>
    requires forall d :: d in defs ==> StructTranslates(d)
  {
    seq(|defs|, i requires 0 <= i < |defs| => BlockOf(defs[i]))
  }

  /**
   * A list of structs whose emitted fields all translate runs to completion:
   * no panic, and one block per struct, in list order, each listing exactly
   * that struct's emitted fields.
   */
  lemma TranslatingStructsRun(defs: seq<StructDef>)
    requires forall d :: d in defs ==> StructTranslates(d)
    ensures RunSpec(defs).failure == None
    ensures RunSpec(defs).output == Printed(BlocksOf(defs))
  {
    var rs := Outcomes(defs);
    forall i | 0 <= i < |defs|
      ensures rs[i] == Ok(BlockOf(defs[i]))
    {
      assert defs[i] in defs;
      DeclarationOfGood(defs[i]);
    }
    RunCompletes(rs);
    assert Blocks(rs) == BlocksOf(defs);
  }
}
