/**
 * extractStruct: walks a struct's fields in declaration order, drops those
 * tagged json:"-", renames the others to their json tag when it is not empty,
 * and writes each as a "name,type" record.
 */
module Extractor {
  import opened GoStd
  import opened Reflect

  /** A field whose json tag is exactly "-" is never emitted. */
  predicate Skipped(f: Field) { f.jsonTag == "-" }

  /** The emitted name: the json tag when there is one, otherwise the Go identifier. */
  function EmittedName(f: Field): string
  {
    if f.jsonTag != "" then f.jsonTag else f.name
  }

  /** fmt.Sprintf("%v,%v", varName, varType). */
  function Record(f: Field): string
  {
    EmittedName(f) + "," + TypeString(f.typ)
  }

  /** The fields that are emitted, in declaration order. */
  function Kept(fs: seq<Field>): (r: seq<Field>)
    ensures |r| <= |fs|
    ensures forall f :: f in r ==> f in fs && !Skipped(f)
  {
    if fs == [] then []
    else
      var init := Kept(fs[..|fs| - 1]);
      assert forall f :: f in fs[..|fs| - 1] ==> f in fs;
      var last := fs[|fs| - 1];
      if Skipped(last) then init else init + [last]
  }

  /** How many fields carry json:"-". */
  function SkipCount(fs: seq<Field>): nat
  {
    if fs == [] then 0
    else SkipCount(fs[..|fs| - 1]) + (if Skipped(fs[|fs| - 1]) then 1 else 0)
  }

  /** The records extractStruct returns for these fields. */
  function Records(fs: seq<Field>): (r: seq<string>)
  {
    var ks := Kept(fs);
    seq(|ks|, i requires 0 <= i < |ks| => Record(ks[i]))
  }

  /**
   * The loop of extractStruct: one record per field not tagged json:"-",
   * in declaration order, and the struct's own name.
   */
  method ExtractStruct(def: StructDef) returns (values: seq<string>, name: string)
    ensures name == def.name
    ensures |values| == |Kept(def.fields)| == |def.fields| - SkipCount(def.fields)
    ensures forall i :: 0 <= i < |values| ==> values[i] == Record(Kept(def.fields)[i])
  {
    var fields := def.fields;
    values := [];
    for i := 0 to |fields|
      invariant |values| == |Kept(fields[..i])|
      invariant forall k :: 0 <= k < |values| ==> values[k] == Record(Kept(fields[..i])[k])
    {
      assert fields[..i + 1][..i] == fields[..i];
      var varName := fields[i].name;
      var varType := fields[i].typ;
      var jsonTag := fields[i].jsonTag;
      if jsonTag == "-" {
        continue;
      } else if jsonTag != "" {
        varName := jsonTag;
      }
      values := values + [varName + "," + TypeString(varType)];
    }
    assert fields[..|fields|] == fields;
    KeptCount(fields);
    name := def.name;
  }

  /** The emitted line count is the field count minus the fields tagged json:"-". */
  lemma {:induction false} KeptCount(fs: seq<Field>)
    ensures |Kept(fs)| == |fs| - SkipCount(fs)
  {
    if fs != [] {
      KeptCount(fs[..|fs| - 1]);
    }
  }

  /** Counting the skipped fields one declaration at a time. */
  lemma SkipCountStep(fs: seq<Field>, k: nat)
    requires k < |fs|
    ensures SkipCount(fs[..k + 1]) == SkipCount(fs[..k]) + (if Skipped(fs[k]) then 1 else 0)
  {
    assert fs[..k + 1][..k] == fs[..k];
  }

  /** A field is emitted exactly when it is declared and not tagged json:"-". */
  lemma {:induction false} KeptExactly(fs: seq<Field>, f: Field)
    ensures f in Kept(fs) <==> f in fs && !Skipped(f)
  {
    if fs != [] {
      var init := fs[..|fs| - 1];
      KeptExactly(init, f);
      assert fs == init + [fs[|fs| - 1]];
    }
  }

  /** A struct with no field tagged json:"-" emits all of its fields. */
  lemma {:induction false} KeptAll(fs: seq<Field>)
    requires forall i :: 0 <= i < |fs| ==> !Skipped(fs[i])
    ensures Kept(fs) == fs
  {
    if fs != [] {
      KeptAll(fs[..|fs| - 1]);
      assert fs[..|fs| - 1] + [fs[|fs| - 1]] == fs;
    }
  }

  /** What is kept of a prefix is a prefix of what is kept. */
  lemma {:induction false} KeptPrefix(fs: seq<Field>, j: nat)
    requires j <= |fs|
    ensures Kept(fs[..j]) <= Kept(fs)
    decreases |fs| - j
  {
    if j < |fs| {
      KeptPrefix(fs, j + 1);
      assert fs[..j + 1][..j] == fs[..j];
    } else {
      assert fs[..j] == fs;
    }
  }

  /**
   * Order is preserved: the field declared at position j, when not skipped,
   * is emitted at the position given by the number of fields kept before it.
   */
  lemma KeptOrder(fs: seq<Field>, j: nat)
    requires j < |fs| && !Skipped(fs[j])
    ensures |Kept(fs[..j])| < |Kept(fs)|
    ensures Kept(fs)[|Kept(fs[..j])|] == fs[j]
  {
    assert fs[..j + 1][..j] == fs[..j];
    assert Kept(fs[..j + 1]) == Kept(fs[..j]) + [fs[j]];
    KeptPrefix(fs, j + 1);
  }

  /** Inserting a field tagged json:"-" anywhere changes nothing that is emitted, whatever its type. */
  lemma {:induction false} SkippedFieldIgnored(a: seq<Field>, f: Field, b: seq<Field>)
    requires Skipped(f)
    ensures Kept(a + [f] + b) == Kept(a + b)
    decreases |b|
  {
    if b == [] {
      assert (a + [f] + b)[..|a + [f] + b| - 1] == a;
      assert a + b == a;
    } else {
      var b' := b[..|b| - 1];
      SkippedFieldIgnored(a, f, b');
      assert (a + [f] + b)[..|a + [f] + b| - 1] == a + [f] + b';
      assert (a + b)[..|a + b| - 1] == a + b';
    }
  }

  /** A record splits back on ',' into the emitted name and the type, when neither holds a comma. */
  lemma RecordRoundTrip(f: Field)
    requires ',' !in EmittedName(f) && ',' !in TypeString(f.typ)
    ensures Split(Record(f), ',') == [EmittedName(f), TypeString(f.typ)]
  {
    assert Record(f) == EmittedName(f) + [','] + TypeString(f.typ);
    SplitPair(EmittedName(f), TypeString(f.typ), ',');
  }
}
