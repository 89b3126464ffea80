/** The resource name of an endpoint: the plural, camel-cased entity or use case name. */
module Resource {
  import opened Wrappers
  import opened Js
  import opened Meta

  predicate EndsWith(s: string, c: char) {
    |s| > 0 && s[|s| - 1] == c
  }

  /**
   * `toPlural`, the English rules: a final `y` becomes `ies`, a final `s`
   * gains `es`, anything else gains `s`.
   */
  function ToPlural(name: string): (r: string)
    ensures EndsWith(name, 'y') ==> |r| == |name| + 2 && r[..|name| - 1] == name[..|name| - 1] && r[|name| - 1..] == "ies"
    ensures !EndsWith(name, 'y') && EndsWith(name, 's') ==> |r| == |name| + 2 && r[..|name|] == name && r[|name|..] == "es"
    ensures !EndsWith(name, 'y') && !EndsWith(name, 's') ==> |r| == |name| + 1 && r[..|name|] == name && r[|name|..] == "s"
    ensures EndsWith(r, 's')
  {
    if EndsWith(name, 'y') then name[..|name| - 1] + "ies"
    else if EndsWith(name, 's') then name + "es"
    else name + "s"
  }

  lemma ToPluralExamples()
    ensures ToPlural("Entity") == "Entities"
    ensures ToPlural("Class") == "Classes"
    ensures ToPlural("Read Entity") == "Read Entities"
    ensures ToPlural("Just AUsecase") == "Just AUsecases"
  {
    assert "Entity"[..5] == "Entit";
    assert "Read Entity"[..10] == "Read Entit";
  }

  // ---------------------------------------------------------------------------
  // toCamelCase
  // ---------------------------------------------------------------------------

  /** The regular-expression class `\w`. */
  predicate IsWordChar(c: char) {
    'a' <= c <= 'z' || 'A' <= c <= 'Z' || '0' <= c <= '9' || c == '_'
  }

  /** The regular-expression class `\s`. */
  predicate IsSpace(c: char) {
    c == ' ' || c == '\t' || c == '\n' || c == '\r' || c == '\U{000B}' || c == '\U{000C}'
    || c == '\U{00A0}' || c == '\U{1680}' || ('\U{2000}' <= c <= '\U{200A}')
    || c == '\U{2028}' || c == '\U{2029}' || c == '\U{202F}' || c == '\U{205F}'
    || c == '\U{3000}' || c == '\U{FEFF}'
  }

  /**
   * Whether the pattern `(?:^\w|[A-Z]|\b\w)` matches the one character at
   * offset `i`: every match is a single character, so the global scan
   * tests every offset on its own.
   */
  predicate Matched(s: string, i: nat)
    requires i < |s|
  {
    ('A' <= s[i] <= 'Z') || (IsWordChar(s[i]) && (i == 0 || !IsWordChar(s[i - 1])))
  }

  /** The replacer: a match at offset 0 is lower-cased, any other match upper-cased. */
  function CaseAt(s: string, i: nat): char
    requires i < |s|
  {
    if !Matched(s, i) then s[i]
    else if i == 0 then LowerChar(s[i])
    else UpperChar(s[i])
  }

  /** The first `replace`. */
  function Recase(s: string): (r: string)
    ensures |r| == |s|
    ensures forall i :: 0 <= i < |s| ==> r[i] == CaseAt(s, i)
  {
    seq(|s|, i requires 0 <= i < |s| => CaseAt(s, i))
  }

  /** The second `replace`: `/\s+/g` by the empty string drops every white-space character. */
  function RemoveSpaces(s: string): (r: string)
    ensures |r| <= |s|
    ensures forall i :: 0 <= i < |r| ==> !IsSpace(r[i])
  {
    if s == [] then []
    else if IsSpace(s[0]) then RemoveSpaces(s[1..])
    else [s[0]] + RemoveSpaces(s[1..])
  }

  /** Exactly the characters of `s` that are not white space survive. */
  lemma {:induction false} RemoveSpacesContents(s: string)
    ensures forall c :: c in RemoveSpaces(s) <==> c in s && !IsSpace(c)
  {
    if s != [] {
      RemoveSpacesContents(s[1..]);
      assert forall c :: c in s <==> c == s[0] || c in s[1..];
    }
  }

  /**
   * `toCamelCase`: the first `replace` re-cases, the second removes every
   * white space character, so none is left.
   */
  function ToCamelCase(s: string): (r: string)
    ensures forall c :: c in r ==> !IsSpace(c)
  {
    RemoveSpacesContents(Recase(s));
    RemoveSpaces(Recase(s))
  }

  /** Re-casing changes the case of a letter and nothing else. */
  lemma RecaseKeepsLetters(s: string, i: nat)
    requires i < |s|
    ensures LowerChar(CaseAt(s, i)) == LowerChar(s[i])
    ensures IsSpace(CaseAt(s, i)) == IsSpace(s[i])
  {
  }

  lemma ToLowerCons(c: char, r: string)
    ensures ToLower([c] + r) == [LowerChar(c)] + ToLower(r)
  {
  }

  /** Two strings that agree up to letter case and white space lose the same spaces. */
  lemma {:induction false} RemoveSpacesFold(s: string, t: string)
    requires |s| == |t|
    requires forall i :: 0 <= i < |s| ==> LowerChar(s[i]) == LowerChar(t[i]) && IsSpace(s[i]) == IsSpace(t[i])
    ensures ToLower(RemoveSpaces(s)) == ToLower(RemoveSpaces(t))
  {
    if s != [] {
      var s', t' := s[1..], t[1..];
      forall i | 0 <= i < |s'|
        ensures LowerChar(s'[i]) == LowerChar(t'[i]) && IsSpace(s'[i]) == IsSpace(t'[i])
      {
        assert s'[i] == s[i + 1] && t'[i] == t[i + 1];
      }
      RemoveSpacesFold(s', t');
      assert IsSpace(s[0]) == IsSpace(t[0]) && LowerChar(s[0]) == LowerChar(t[0]);
      if !IsSpace(s[0]) {
        ToLowerCons(s[0], RemoveSpaces(s'));
        ToLowerCons(t[0], RemoveSpaces(t'));
      }
    }
  }

  /**
   * Camel-casing only removes white space and changes letter case: folded
   * to lower case, it is the name without its white space.
   */
  lemma CamelCaseOnlyRecases(s: string)
    ensures ToLower(ToCamelCase(s)) == ToLower(RemoveSpaces(s))
  {
    var r := Recase(s);
    forall i | 0 <= i < |s|
      ensures LowerChar(r[i]) == LowerChar(s[i]) && IsSpace(r[i]) == IsSpace(s[i])
    {
      RecaseKeepsLetters(s, i);
    }
    RemoveSpacesFold(r, s);
  }

  /** A name that starts with a word character starts, camel-cased, with its lower-case form. */
  lemma CamelCaseStartsLower(s: string)
    requires |s| > 0 && IsWordChar(s[0])
    ensures |ToCamelCase(s)| > 0 && ToCamelCase(s)[0] == LowerChar(s[0])
  {
    assert !IsSpace(Recase(s)[0]);
  }

  /** Something other than white space survives camel-casing. */
  lemma {:induction false} RemoveSpacesNonEmpty(s: string, i: nat)
    requires i < |s| && !IsSpace(s[i])
    ensures |RemoveSpaces(s)| > 0
  {
    RemoveSpacesContents(s);
    assert s[i] in s;
  }

  /**
   * Every other word start (a word character after a non-word character,
   * or an ASCII capital anywhere but the front) is upper-cased.
   */
  lemma RecaseWordStarts(s: string, i: nat)
    requires 0 < i < |s| && IsWordChar(s[i]) && !IsWordChar(s[i - 1])
    ensures Recase(s)[i] == UpperChar(s[i])
    ensures forall j :: 0 < j < |s| && 'A' <= s[j] <= 'Z' ==> Recase(s)[j] == s[j]
  {
  }

  /**
   * `Resource.build`: the entity's name if it has one, the use case id
   * otherwise, made plural and camel-cased; nothing (`""`) when neither
   * is set.
   */
  function Build(entity: Option<EntityDesc>, usecaseID: string): (r: string)
    ensures r == "" <==> (entity.None? || entity.value.name == "") && usecaseID == ""
  {
    var name := if entity.Some? && entity.value.name != "" then entity.value.name else usecaseID;
    if name == "" then ""
    else
      var plural := ToPlural(name);
      RecaseKeepsLetters(plural, |plural| - 1);
      RemoveSpacesNonEmpty(Recase(plural), |plural| - 1);
      ToCamelCase(plural)
  }

  /** The entity's name wins over the use case id; the id is used only when the entity has no name. */
  lemma BuildNameChoice(entity: Option<EntityDesc>, usecaseID: string)
    ensures entity.Some? && entity.value.name != "" ==> Build(entity, usecaseID) == ToCamelCase(ToPlural(entity.value.name))
    ensures (entity.None? || entity.value.name == "") && usecaseID != "" ==> Build(entity, usecaseID) == ToCamelCase(ToPlural(usecaseID))
  {
  }


  lemma {:induction false} RemoveSpacesAppend(a: string, b: string)
    ensures RemoveSpaces(a + b) == RemoveSpaces(a) + RemoveSpaces(b)
  {
    if a == [] {
      assert a + b == b;
    } else {
      assert (a + b)[0] == a[0] && (a + b)[1..] == a[1..] + b;
      RemoveSpacesAppend(a[1..], b);
    }
  }

  lemma {:induction false} RemoveSpacesKeeps(s: string)
    requires forall i :: 0 <= i < |s| ==> !IsSpace(s[i])
    ensures RemoveSpaces(s) == s
  {
    if s != [] {
      RemoveSpacesKeeps(s[1..]);
    }
  }

  lemma SingleSpace()
    ensures RemoveSpaces(" ") == []
  {
    assert IsSpace(" "[0]);
    assert " "[1..] == [];
  }

  lemma RemoveOneSpace(a: string, b: string)
    requires forall i :: 0 <= i < |a| ==> !IsSpace(a[i])
    requires forall i :: 0 <= i < |b| ==> !IsSpace(b[i])
    ensures RemoveSpaces(a + " " + b) == a + b
  {
    RemoveSpacesAppend(a + " ", b);
    RemoveSpacesAppend(a, " ");
    RemoveSpacesKeeps(a);
    RemoveSpacesKeeps(b);
    SingleSpace();
    assert RemoveSpaces(a + " ") == a;
  }

  lemma RecaseEntityNames()
    ensures Recase("Entity Names") == "entity" + " " + "Names"
  {
    var r := Recase("Entity Names");
    forall i | 0 <= i < 12
      ensures r[i] == "entity Names"[i]
    {
      if i == 0 {} else if i == 1 {} else if i == 2 {} else if i == 3 {} else if i == 4 {}
      else if i == 5 {} else if i == 6 {} else if i == 7 {} else if i == 8 {} else if i == 9 {}
      else if i == 10 {} else {}
    }
    assert r == "entity Names";
  }

  lemma RecaseJustAUsecases()
    ensures Recase("Just AUsecases") == "just" + " " + "AUsecases"
  {
    var r := Recase("Just AUsecases");
    forall i | 0 <= i < 14
      ensures r[i] == "just AUsecases"[i]
    {
      if i == 0 {} else if i == 1 {} else if i == 2 {} else if i == 3 {} else if i == 4 {}
      else if i == 5 {} else if i == 6 {} else if i == 7 {} else if i == 8 {} else if i == 9 {}
      else if i == 10 {} else if i == 11 {} else if i == 12 {} else {}
    }
    assert r == "just AUsecases";
  }

  lemma CamelCaseEntityNames()
    ensures ToCamelCase("Entity Names") == "entityNames"
  {
    RecaseEntityNames();
    RemoveOneSpace("entity", "Names");
  }

  lemma CamelCaseJustAUsecases()
    ensures ToCamelCase("Just AUsecases") == "justAUsecases"
  {
    RecaseJustAUsecases();
    RemoveOneSpace("just", "AUsecases");
  }

  /** The entity 'Entity Name' gives the resource 'entityNames'. */
  lemma BuildFromEntityExample()
    ensures Build(Some(EntityDesc("Entity Name", [])), "ReadUsecase") == "entityNames"
  {
    assert ToPlural("Entity Name") == "Entity Names";
    CamelCaseEntityNames();
  }

  /** The use case 'Just AUsecase', with no entity, gives the resource 'justAUsecases'. */
  lemma BuildFromUseCaseExample()
    ensures Build(None, "Just AUsecase") == "justAUsecases"
  {
    assert ToPlural("Just AUsecase") == "Just AUsecases";
    CamelCaseJustAUsecases();
  }

  lemma RecaseReadEntities()
    ensures Recase("read Entities") == "read" + " " + "Entities"
  {
    var r := Recase("read Entities");
    forall i | 0 <= i < 13
      ensures r[i] == "read Entities"[i]
    {
      if i == 0 {} else if i == 1 {} else if i == 2 {} else if i == 3 {} else if i == 4 {}
      else if i == 5 {} else if i == 6 {} else if i == 7 {} else if i == 8 {} else if i == 9 {}
      else if i == 10 {} else if i == 11 {} else {}
    }
    assert r == "read Entities";
  }

  lemma CamelCaseReadEntities()
    ensures ToCamelCase("read Entities") == "readEntities"
  {
    RecaseReadEntities();
    RemoveOneSpace("read", "Entities");
  }

  /** The entity 'read Entity' gives the resource 'readEntities', whatever the use case id. */
  lemma BuildReadEntityExample(schema: Entries<SchemaEntry>, usecaseID: string)
    ensures Build(Some(EntityDesc("read Entity", schema)), usecaseID) == "readEntities"
  {
    assert ToPlural("read Entity") == "read Entities";
    CamelCaseReadEntities();
  }
}
