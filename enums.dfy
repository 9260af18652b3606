/**
 The two closed classifications of the catalogue and the lookup that turns
 free text into one of their members: a case-insensitive exact match against
 the member names, tried in declaration order (commons-lang's
 EnumUtils.getEnumIgnoreCase). Unknown text gives None, never a default member.
 */
module Enums {
  import opened Wrappers
  import opened Text

  /** Song category. Only the members the catalogue's own tests use are modelled. */
  datatype Category = POP | CLASSICAL

  /** Melody type: COLOR, BLENDS or DIRECTION. */
  datatype MelodyType = COLOR | BLENDS | DIRECTION

  /** The members in declaration order, as values() lists them. */
  const Categories: seq<Category> := [POP, CLASSICAL]
  const MelodyTypes: seq<MelodyType> := [COLOR, BLENDS, DIRECTION]

  function CategoryName(c: Category): string {
    match c
    case POP => "POP"
    case CLASSICAL => "CLASSICAL"
  }

  function MelodyTypeName(t: MelodyType): string {
    match t
    case COLOR => "COLOR"
    case BLENDS => "BLENDS"
    case DIRECTION => "DIRECTION"
  }

  /** The first member whose name equals text, ignoring case. */
  function FirstNamed<E(==)>(members: seq<E>, name: E -> string, text: string): (r: Option<E>)
    ensures r.Some? ==> r.value in members && EqualsIgnoreCase(name(r.value), text)
    ensures r.None? <==> forall m :: m in members ==> !EqualsIgnoreCase(name(m), text)
    ensures r.Some? ==> exists i :: (0 <= i < |members| && members[i] == r.value
      && forall j :: 0 <= j < i ==> !EqualsIgnoreCase(name(members[j]), text))
  {
    if members == [] then None
    else if EqualsIgnoreCase(name(members[0]), text) then Some(members[0])
    else
      var r := FirstNamed(members[1..], name, text);
      if r.Some? then
        var i :| 0 <= i < |members[1..]| && members[1..][i] == r.value
          && forall j :: 0 <= j < i ==> !EqualsIgnoreCase(name(members[1..][j]), text);
        assert members[i + 1] == r.value;
        r
      else r
  }

  /** Text that folds alike resolves alike. */
  lemma {:induction false} FirstNamedRespectsFold<E>(members: seq<E>, name: E -> string, a: string, b: string)
    requires Fold(a) == Fold(b)
    ensures FirstNamed(members, name, a) == FirstNamed(members, name, b)
  {
    if members != [] {
      EqualsIgnoreCaseIffSameFold(name(members[0]), a);
      EqualsIgnoreCaseIffSameFold(name(members[0]), b);
      FirstNamedRespectsFold(members[1..], name, a, b);
    }
  }

  function ResolveCategory(text: string): (r: Option<Category>)
    ensures r.Some? <==> exists c: Category :: EqualsIgnoreCase(CategoryName(c), text)
    ensures r.Some? ==> EqualsIgnoreCase(CategoryName(r.value), text)
  {
    var r := FirstNamed(Categories, CategoryName, text);
    forall c: Category ensures c in Categories {
      assert c == Categories[if c == POP then 0 else 1];
    }
    r
  }

  function ResolveMelodyType(text: string): (r: Option<MelodyType>)
    ensures r.Some? <==> exists t: MelodyType :: EqualsIgnoreCase(MelodyTypeName(t), text)
    ensures r.Some? ==> EqualsIgnoreCase(MelodyTypeName(r.value), text)
  {
    var r := FirstNamed(MelodyTypes, MelodyTypeName, text);
    forall t: MelodyType ensures t in MelodyTypes {
      assert t == MelodyTypes[if t == COLOR then 0 else if t == BLENDS then 1 else 2];
    }
    r
  }

  /** Resolution ignores case: "pop", "Pop" and "POP" name the same member. */
  lemma ResolveCategoryIgnoresCase(a: string, b: string)
    requires EqualsIgnoreCase(a, b)
    ensures ResolveCategory(a) == ResolveCategory(b)
  {
    EqualsIgnoreCaseIffSameFold(a, b);
    FirstNamedRespectsFold(Categories, CategoryName, a, b);
  }

  lemma ResolveMelodyTypeIgnoresCase(a: string, b: string)
    requires EqualsIgnoreCase(a, b)
    ensures ResolveMelodyType(a) == ResolveMelodyType(b)
  {
    EqualsIgnoreCaseIffSameFold(a, b);
    FirstNamedRespectsFold(MelodyTypes, MelodyTypeName, a, b);
  }

  /** Every member is found by its own name, so resolution is a left inverse of naming. */
  lemma ResolveCategoryName(c: Category)
    ensures ResolveCategory(CategoryName(c)) == Some(c)
  {
    var r := ResolveCategory(CategoryName(c));
    assert EqualsIgnoreCase(CategoryName(c), CategoryName(c));
  }

  lemma ResolveMelodyTypeName(t: MelodyType)
    ensures ResolveMelodyType(MelodyTypeName(t)) == Some(t)
  {
    var r := ResolveMelodyType(MelodyTypeName(t));
    assert EqualsIgnoreCase(MelodyTypeName(t), MelodyTypeName(t));
  }

  /** The inputs the catalogue's tests use: the exact names resolve, and the
      misspelt ones resolve to nothing. */
  lemma ResolutionExamples()
    ensures ResolveCategory("POP") == Some(POP)
    ensures ResolveMelodyType("COLOR") == Some(COLOR)
    ensures ResolveCategory("Popy") == None && ResolveCategory("popy") == None
    ensures ResolveMelodyType("COLORRS") == None && ResolveMelodyType("COLORRRR") == None
    ensures ResolveMelodyType("DIRECTyyy") == None
  {
    ResolveCategoryName(POP);
    ResolveMelodyTypeName(COLOR);
    ResolveCategoryIgnoresCase("Popy", "popy");
    assert !EqualsIgnoreCase(CategoryName(POP), "Popy");
    assert !EqualsIgnoreCase(CategoryName(CLASSICAL), "Popy");
    assert !EqualsIgnoreCase(MelodyTypeName(COLOR), "COLORRS");
    assert !EqualsIgnoreCase(MelodyTypeName(BLENDS), "COLORRS");
    assert !EqualsIgnoreCase(MelodyTypeName(DIRECTION), "COLORRS");
    assert !EqualsIgnoreCase(MelodyTypeName(COLOR), "COLORRRR");
    assert !EqualsIgnoreCase(MelodyTypeName(BLENDS), "COLORRRR");
    assert !EqualsIgnoreCase(MelodyTypeName(DIRECTION), "COLORRRR");
    assert !EqualsIgnoreCase(MelodyTypeName(COLOR), "DIRECTyyy");
    assert !EqualsIgnoreCase(MelodyTypeName(BLENDS), "DIRECTyyy");
    assert !CharEqualsIgnoreCase(MelodyTypeName(DIRECTION)[6], "DIRECTyyy"[6]);
  }

  /** Lower- and mixed-case spellings of a name resolve to the same member. */
  lemma CategoryCaseVariants()
    ensures ResolveCategory("pop") == Some(POP) && ResolveCategory("Pop") == Some(POP)
  {
    ResolveCategoryName(POP);
    ResolveCategoryIgnoresCase("POP", "pop");
    ResolveCategoryIgnoresCase("POP", "Pop");
  }

  lemma MelodyTypeCaseVariants()
    ensures ResolveMelodyType("color") == Some(COLOR)
    ensures ResolveMelodyType("Direction") == Some(DIRECTION)
  {
    ResolveMelodyTypeName(COLOR);
    ResolveMelodyTypeIgnoresCase("COLOR", "color");
    ResolveMelodyTypeName(DIRECTION);
    ResolveMelodyTypeIgnoresCase("DIRECTION", "Direction");
  }
}
