/**
 * convertGoTypeToTsxType: the text of a Go field type to the name of a
 * TypeScript type, or a panic for a primitive the table does not know.
 */
module Translator {
  import opened Wrappers
  import opened GoStd
  import opened Reflect

  /** The switch on the bare type: int and float64 are numbers, string and bool map to their own kinds. */
  function PrimitiveTsType(t: string): Result<string, Panic>
  {
    if t == "int" || t == "float64" then Ok("number")
    else if t == "string" then Ok(t)
    else if t == "bool" then Ok("boolean")
    else Err(NoTranslation(t))
  }

  /**
   * A qualified type (one holding a dot) has its slice markers moved to one
   * trailing "[]" and its lower-case qualifiers deleted; it never fails.
   * Any other type loses its '*'s and goes through the primitive table.
   */
  function ConvertGoTypeToTsxType(t: string): (r: Result<string, Panic>)
    ensures '.' in t ==> r.Ok? && '.' !in r.value
    ensures '.' !in t && r.Ok? ==> r.value in {"number", "string", "boolean"}
    ensures r.Err? ==> '.' !in t && r.error == NoTranslation(ReplaceAll(t, "*", "")) && '*' !in r.error.typeName
  {
    ContainsChar(t, '.');
    if Contains(t, ".") then
      var t' := if Contains(t, "[]") then ReplaceAll(t, "[]", "") + "[]" else t;
      DeleteQualifiersNoDot(t');
      Ok(DeleteQualifiers(t'))
    else
      RemoveCharSpec(t, '*');
      PrimitiveTsType(ReplaceAll(t, "*", ""))
  }

  /** An unqualified type maps exactly by the table once its '*'s are gone, in both directions. */
  lemma UnqualifiedTranslation(t: string)
    requires '.' !in t
    ensures var bare := ReplaceAll(t, "*", "");
      && (ConvertGoTypeToTsxType(t) == Ok("number") <==> bare == "int" || bare == "float64")
      && (ConvertGoTypeToTsxType(t) == Ok("string") <==> bare == "string")
      && (ConvertGoTypeToTsxType(t) == Ok("boolean") <==> bare == "bool")
      && (ConvertGoTypeToTsxType(t).Err? <==> bare !in {"int", "float64", "string", "bool"})
  {
    ContainsChar(t, '.');
  }

  /** Pointer indirection is dropped: *T translates as T does. */
  lemma PointerIgnored(t: string)
    requires '.' !in t
    ensures ConvertGoTypeToTsxType("*" + t) == ConvertGoTypeToTsxType(t)
  {
    ContainsChar(t, '.');
    ContainsChar("*" + t, '.');
    var s := "*" + t;
    assert s[..1] == "*" && s[1..] == t;
    assert ReplaceAll(s, "*", "") == ReplaceAll(t, "*", "");
    assert '.' !in s;
  }

  // ---------------------------------------------------------------------------
  // A structural reading of the same translation, over GoType

  /** The innermost type under all pointers and slices. */
  function Leaf(t: GoType): (l: GoType)
    ensures l.Basic? || l.Named?
  {
    match t
    case Pointer(e) => Leaf(e)
    case Slice(e) => Leaf(e)
    case _ => t
  }

  /** Whether a slice occurs anywhere in the chain of pointers and slices. */
  predicate HasSlice(t: GoType)
  {
    match t
    case Pointer(e) => HasSlice(e)
    case Slice(e) => true
    case _ => false
  }

  /** One '*' per pointer in the chain, in order. */
  function Stars(t: GoType): (s: string)
    ensures forall i :: 0 <= i < |s| ==> s[i] == '*'
  {
    match t
    case Pointer(e) => "*" + Stars(e)
    case Slice(e) => Stars(e)
    case _ => []
  }

  /** One "[]" per slice in the chain, in order. */
  function Brackets(t: GoType): string
  {
    match t
    case Pointer(e) => Brackets(e)
    case Slice(e) => "[]" + Brackets(e)
    case _ => []
  }

  /**
   * Reference translation: a type defined in a package becomes its own name,
   * keeping its pointers' stars in front and one "[]" behind when any slice
   * is present; a predeclared type under a slice fails, as does one outside
   * the table.
   */
  function TranslateTyped(t: GoType): Result<string, Panic>
  {
    var l := Leaf(t);
    if l.Named? then Ok(Stars(t) + l.name + (if HasSlice(t) then "[]" else ""))
    else if HasSlice(t) then Err(NoTranslation(Brackets(t) + l.name))
    else PrimitiveTsType(l.name)
  }

  lemma {:induction false} DotIffNamed(t: GoType)
    requires WellFormed(t)
    ensures '.' in TypeString(t) <==> Leaf(t).Named?
  {
    match t
    case Basic(n) =>
    case Named(p, n) => assert TypeString(t)[|p|] == '.';
    case Pointer(e) => DotIffNamed(e);
    case Slice(e) => DotIffNamed(e);
  }

  lemma {:induction false} BracketsIffSlice(t: GoType)
    requires WellFormed(t)
    ensures Contains(TypeString(t), "[]") <==> HasSlice(t)
  {
    var s := TypeString(t);
    match t
    case Basic(n) => HeadAbsentNotContained(s, "[]");
    case Named(p, n) => HeadAbsentNotContained(s, "[]");
    case Pointer(e) =>
      BracketsIffSlice(e);
      if |s| >= 2 {
        assert s[..2][0] == '*';
        assert s[1..] == TypeString(e);
      } else {
        assert !HasSlice(e) by { if HasSlice(e) { HasSliceLong(e); } }
      }
    case Slice(e) => assert OccursAt(s, "[]", 0);
  }

  lemma {:induction false} HasSliceLong(t: GoType)
    requires HasSlice(t)
    ensures |TypeString(t)| >= 2
  {
    match t
    case Pointer(e) => HasSliceLong(e);
    case Slice(e) =>
  }

  /** For a qualified type, removing every "[]" leaves the stars and the qualified name. */
  lemma {:induction false} BracketsRemoved(t: GoType)
    requires WellFormed(t) && Leaf(t).Named?
    ensures ReplaceAll(TypeString(t), "[]", "") == Stars(t) + TypeString(Leaf(t))
  {
    var s := TypeString(t);
    match t
    case Named(p, n) => ReplaceAllAbsent(s, "[]", "");
    case Pointer(e) =>
      BracketsRemoved(e);
      if |s| >= 2 {
        assert s[..2][0] == '*';
        assert s[1..] == TypeString(e);
      } else {
        NamedLong(e);
      }
    case Slice(e) =>
      assert s[..2] == "[]" && s[2..] == TypeString(e);
      BracketsRemoved(e);
  }

  lemma {:induction false} NamedLong(t: GoType)
    requires WellFormed(t) && Leaf(t).Named?
    ensures |TypeString(t)| >= 3
  {
    match t
    case Named(p, n) =>
    case Pointer(e) => NamedLong(e);
    case Slice(e) => NamedLong(e);
  }

  /** For an unqualified type, removing every '*' leaves the slices' brackets and the predeclared name. */
  lemma {:induction false} StarsRemoved(t: GoType)
    requires WellFormed(t) && Leaf(t).Basic?
    ensures ReplaceAll(TypeString(t), "*", "") == Brackets(t) + Leaf(t).name
  {
    var s := TypeString(t);
    match t
    case Basic(n) => ReplaceAllAbsent(s, "*", "");
    case Pointer(e) =>
      assert s[..1] == "*" && s[1..] == TypeString(e);
      StarsRemoved(e);
    case Slice(e) =>
      assert s[..1] == "[" && s[1..] == "]" + TypeString(e);
      var s' := s[1..];
      assert s'[..1] == "]" && s'[1..] == TypeString(e);
      StarsRemoved(e);
  }

  /** Without a slice, the printed type is the stars followed by the leaf. */
  lemma {:induction false} NoSliceString(t: GoType)
    requires !HasSlice(t)
    ensures TypeString(t) == Stars(t) + TypeString(Leaf(t))
  {
    match t
    case Basic(n) => assert Stars(t) == [];
    case Named(p, n) => assert Stars(t) == [];
    case Pointer(e) =>
      NoSliceString(e);
      assert TypeString(t) == "*" + (Stars(e) + TypeString(Leaf(e)));
      assert Stars(t) == "*" + Stars(e) && Leaf(t) == Leaf(e);
  }

  /** A run of stars in front is copied by the qualifier deletion. */
  lemma {:induction false} DeleteQualifiersStars(a: string, s: string)
    requires forall i :: 0 <= i < |a| ==> a[i] == '*'
    ensures DeleteQualifiers(a + s) == a + DeleteQualifiers(s)
    decreases |a|
  {
    if a != [] {
      DeleteQualifiersCons(a[0], a[1..] + s);
      DeleteQualifiersStars(a[1..], s);
      calc {
        DeleteQualifiers(a + s);
        { assert a + s == [a[0]] + (a[1..] + s); }
        DeleteQualifiers([a[0]] + (a[1..] + s));
        [a[0]] + DeleteQualifiers(a[1..] + s);
        [a[0]] + (a[1..] + DeleteQualifiers(s));
        { assert a == [a[0]] + a[1..]; }
        a + DeleteQualifiers(s);
      }
    } else {
      assert a + s == s;
    }
  }

  /** Deleting the qualifier of stars + pkg.Name + suffix leaves stars + Name + suffix. */
  lemma QualifiedName(stars: string, p: string, n: string, suffix: string)
    requires forall i :: 0 <= i < |stars| ==> stars[i] == '*'
    requires forall c :: c in p ==> IsLower(c)
    requires '.' !in n && '.' !in suffix
    ensures DeleteQualifiers(stars + (p + "." + n) + suffix) == stars + n + suffix
  {
    AppendAssoc(stars, p + "." + n, suffix);
    AppendAssoc(p + ".", n, suffix);
    DeleteQualifiersStars(stars, p + "." + (n + suffix));
    DeleteQualifiersQualifier(p, n + suffix);
    DeleteQualifiersNoMatch(n + suffix);
    AppendAssoc(stars, n, suffix);
  }

  /**
   * The string algorithm agrees with the structural reading on every
   * well-formed type: the text Go prints for t translates to TranslateTyped(t).
   */
  lemma ConvertMatchesTyped(t: GoType)
    requires WellFormed(t)
    ensures ConvertGoTypeToTsxType(TypeString(t)) == TranslateTyped(t)
  {
    var s := TypeString(t);
    var l := Leaf(t);
    DotIffNamed(t);
    ContainsChar(s, '.');
    BracketsIffSlice(t);
    LeafWellFormed(t);
    if l.Named? {
      assert '.' !in l.name by { assert forall c :: c in l.name ==> IsIdentChar(c); }
      if HasSlice(t) {
        BracketsRemoved(t);
        QualifiedName(Stars(t), l.pkg, l.name, "[]");
      } else {
        NoSliceString(t);
        QualifiedName(Stars(t), l.pkg, l.name, "");
        assert Stars(t) + (l.pkg + "." + l.name) + "" == s;
      }
    } else {
      StarsRemoved(t);
      if !HasSlice(t) {
        assert Brackets(t) == [] by { BracketsEmpty(t); }
        assert Brackets(t) + l.name == l.name;
      } else {
        BracketsStart(t);
        var bare := Brackets(t) + l.name;
        assert bare[0] == '[';
        assert bare != "int" && bare != "float64" && bare != "string" && bare != "bool" by {
          assert "int"[0] == 'i' && "float64"[0] == 'f' && "string"[0] == 's' && "bool"[0] == 'b';
        }
      }
    }
  }

  lemma {:induction false} LeafWellFormed(t: GoType)
    requires WellFormed(t)
    ensures WellFormed(Leaf(t))
  {
    match t
    case Basic(n) =>
    case Named(p, n) =>
    case Pointer(e) => LeafWellFormed(e);
    case Slice(e) => LeafWellFormed(e);
  }

  lemma {:induction false} BracketsEmpty(t: GoType)
    requires !HasSlice(t)
    ensures Brackets(t) == []
  {
    match t
    case Basic(n) =>
    case Named(p, n) =>
    case Pointer(e) => BracketsEmpty(e);
  }

  lemma {:induction false} BracketsStart(t: GoType)
    requires HasSlice(t)
    ensures |Brackets(t)| >= 2 && Brackets(t)[0] == '['
  {
    match t
    case Pointer(e) => BracketsStart(e);
    case Slice(e) =>
  }

  /** A qualified name loses its package: model.Point2f and gorm.DeletedAt become Point2f and DeletedAt. */
  lemma QualifiedTranslation(pkg: string, name: string)
    requires WellFormed(Named(pkg, name))
    ensures ConvertGoTypeToTsxType(pkg + "." + name) == Ok(name)
  {
    var t := Named(pkg, name);
    ConvertMatchesTyped(t);
    assert [] + name + "" == name;
  }

  /** A slice of a qualified name becomes the name with one trailing "[]": []model.Building becomes Building[]. */
  lemma SliceTranslation(pkg: string, name: string)
    requires WellFormed(Named(pkg, name))
    ensures ConvertGoTypeToTsxType("[]" + (pkg + "." + name)) == Ok(name + "[]")
  {
    var t := Slice(Named(pkg, name));
    ConvertMatchesTyped(t);
    assert TypeString(t) == "[]" + (pkg + "." + name);
    assert Leaf(t) == Named(pkg, name) && HasSlice(t) && Stars(t) == [];
    assert TranslateTyped(t) == Ok([] + name + "[]");
    assert [] + name + "[]" == name + "[]";
  }

  /**
   * In the qualified branch a pointer's '*' is not removed: []*model.PairPoint2f
   * becomes *PairPoint2f[].
   */
  lemma SliceOfPointerTranslation(pkg: string, name: string)
    requires WellFormed(Named(pkg, name))
    ensures ConvertGoTypeToTsxType("[]" + ("*" + (pkg + "." + name))) == Ok("*" + name + "[]")
  {
    var t := Slice(Pointer(Named(pkg, name)));
    ConvertMatchesTyped(t);
    var inner := Pointer(Named(pkg, name));
    assert TypeString(inner) == "*" + (pkg + "." + name);
    assert TypeString(t) == "[]" + TypeString(inner);
    assert Leaf(inner) == Named(pkg, name) && Leaf(t) == Leaf(inner) && HasSlice(t);
    assert Stars(Named(pkg, name)) == [];
    assert Stars(t) == Stars(Pointer(Named(pkg, name))) == "*" + [];
    assert TranslateTyped(t) == Ok(("*" + []) + name + "[]");
    assert ("*" + []) + name + "[]" == "*" + name + "[]";
  }

  /** A slice of a predeclared type is unqualified and not in the table, so it fails: []string panics. */
  lemma SliceOfBasicFails(name: string)
    requires WellFormed(Basic(name))
    ensures ConvertGoTypeToTsxType("[]" + name) == Err(NoTranslation("[]" + name))
  {
    var t := Slice(Basic(name));
    ConvertMatchesTyped(t);
    assert TypeString(t) == "[]" + name;
    assert Leaf(t) == Basic(name) && HasSlice(t);
    assert Brackets(t) == "[]" + Brackets(Basic(name)) == "[]" + [];
    assert TranslateTyped(t) == Err(NoTranslation(("[]" + []) + name));
    assert ("[]" + []) + name == "[]" + name;
  }

  /**
   * A package name outside [a-z]* keeps its head: the deletion only takes the
   * lower-case run directly before the dot, so "v2.Foo" becomes "v2Foo".
   */
  lemma DigitPackageKeepsHead()
    ensures ConvertGoTypeToTsxType("v2.Foo") == Ok("v2Foo")
  {
    DigitPackageDeletion();
    DigitPackageUnsliced();
  }

  lemma DigitPackageUnsliced()
    ensures ConvertGoTypeToTsxType("v2.Foo") == Ok(DeleteQualifiers("v2.Foo"))
  {
    QualifiedNoSlice("v2.Foo");
  }

  /** Likewise "my_pkg.T" becomes "my_T": only "pkg." is deleted. */
  lemma UnderscorePackageKeepsHead()
    ensures ConvertGoTypeToTsxType("my_pkg.T") == Ok("my_T")
  {
    UnderscorePackageDeletion();
    UnderscorePackageUnsliced();
  }

  lemma UnderscorePackageUnsliced()
    ensures ConvertGoTypeToTsxType("my_pkg.T") == Ok(DeleteQualifiers("my_pkg.T"))
  {
    QualifiedNoSlice("my_pkg.T");
  }

  /** A qualified type without brackets only has its qualifiers deleted. */
  lemma QualifiedNoSlice(t: string)
    requires '.' in t && '[' !in t
    ensures ConvertGoTypeToTsxType(t) == Ok(DeleteQualifiers(t))
  {
    ContainsChar(t, '.');
    HeadAbsentNotContained(t, "[]");
  }

  lemma DigitPackageDeletion()
    ensures DeleteQualifiers("v2.Foo") == "v2Foo"
  {
    DigitPackageTail();
    var t := "v2.Foo";
    assert LowerRun(t) == 1;
    assert t[..1] == "v" && t[1..] == "2.Foo";
  }

  lemma DigitPackageTail()
    ensures DeleteQualifiers("2.Foo") == "2Foo"
  {
    assert LowerRun("oo") == 2 by { LowerRunAll("oo"); }
    DeleteQualifiersCons('F', "oo");
    assert "Foo" == ['F'] + "oo";
    assert DeleteQualifiers(".Foo") == DeleteQualifiers("Foo");
    DeleteQualifiersCons('2', ".Foo");
    assert "2.Foo" == ['2'] + ".Foo";
  }

  lemma UnderscorePackageDeletion()
    ensures DeleteQualifiers("my_pkg.T") == "my_T"
  {
    UnderscorePackageTail();
    var t := "my_pkg.T";
    assert LowerRun(t) == 2;
    assert t[..2] == "my" && t[2..] == "_pkg.T";
  }

  lemma UnderscorePackageTail()
    ensures DeleteQualifiers("_pkg.T") == "_T"
  {
    QualifierPkgDeletion();
    DeleteQualifiersCons('_', "pkg.T");
    assert "_pkg.T" == ['_'] + "pkg.T";
  }

  lemma QualifierPkgDeletion()
    ensures DeleteQualifiers("pkg.T") == "T"
  {
    assert forall c :: c in "pkg" ==> IsLower(c) by { assert "pkg" == ['p', 'k', 'g']; }
    DeleteQualifiersQualifier("pkg", "T");
    assert "pkg" + "." + "T" == "pkg.T";
    DeleteQualifiersCons('T', []);
    assert ['T'] + [] == "T";
  }
}
