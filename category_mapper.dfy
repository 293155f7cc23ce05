/**
 * The category mapper: normalisation of the English translation of a raw
 * Portuguese category label, the mapping table built from the translation
 * table, first-match lookup of a raw label, and the mapper object whose one
 * piece of state is the mapping table it holds (absent, built or loaded).
 * The persisted mapping file is the mapper's `file` field: absent, or a
 * table read back exactly as it was written.
 */
module CategoryMapper {
  import opened Wrappers
  import opened TableOps

  /** The label given to a missing translation and to a raw label with no mapping row. */
  const UNKNOWN: string := "Unknown"

  // ---------------------------------------------------------------------
  // Normalisation: str(x).title().replace(' ', '_'), or "Unknown" for null
  // ---------------------------------------------------------------------

  /** The cased characters of ASCII. */
  predicate IsLetter(c: char)
  {
    'a' <= c <= 'z' || 'A' <= c <= 'Z'
  }

  function ToUpper(c: char): char
  {
    if 'a' <= c <= 'z' then (c as int - 32) as char else c
  }

  function ToLower(c: char): char
  {
    if 'A' <= c <= 'Z' then (c as int + 32) as char else c
  }

  /** str.title over the rest of a string, knowing whether the character before it was a letter. */
  function TitleFrom(s: string, afterLetter: bool): string
  {
    if s == [] then []
    else
      var c := if !IsLetter(s[0]) then s[0] else if afterLetter then ToLower(s[0]) else ToUpper(s[0]);
      [c] + TitleFrom(s[1..], IsLetter(s[0]))
  }

  /** Python's str.title over ASCII. */
  function Title(s: string): string
  {
    TitleFrom(s, false)
  }

  /**
   * The rule str.title applies at position i: a letter at the start of the
   * string or after a non-letter is upper-cased, any other letter is
   * lower-cased, and every other character is kept.
   */
  function TitleRuleAt(s: string, i: nat): char
    requires i < |s|
  {
    if !IsLetter(s[i]) then s[i]
    else if i > 0 && IsLetter(s[i - 1]) then ToLower(s[i])
    else ToUpper(s[i])
  }

  lemma {:induction false} TitleFromPointwise(s: string, afterLetter: bool)
    ensures |TitleFrom(s, afterLetter)| == |s|
    ensures forall i :: 0 < i < |s| ==> TitleFrom(s, afterLetter)[i] == TitleRuleAt(s, i)
  {
    if s != [] {
      var rest := TitleFrom(s[1..], IsLetter(s[0]));
      TitleFromPointwise(s[1..], IsLetter(s[0]));
      forall i | 0 < i < |s|
        ensures TitleFrom(s, afterLetter)[i] == TitleRuleAt(s, i)
      {
        assert TitleFrom(s, afterLetter)[i] == rest[i - 1];
        if i > 1 {
          assert TitleRuleAt(s[1..], i - 1) == TitleRuleAt(s, i);
        }
      }
    }
  }

  /** Title follows the str.title rule at every position. */
  lemma {:induction false} TitlePointwise(s: string)
    ensures |Title(s)| == |s|
    ensures forall i :: 0 <= i < |s| ==> Title(s)[i] == TitleRuleAt(s, i)
  {
    TitleFromPointwise(s, false);
  }

  /** str.replace(' ', '_') */
  function ReplaceSpaces(s: string): string
  {
    if s == [] then [] else [if s[0] == ' ' then '_' else s[0]] + ReplaceSpaces(s[1..])
  }

  lemma {:induction false} ReplaceSpacesPointwise(s: string)
    ensures |ReplaceSpaces(s)| == |s|
    ensures forall i :: 0 <= i < |s| ==> ReplaceSpaces(s)[i] == if s[i] == ' ' then '_' else s[i]
  {
    if s != [] {
      ReplaceSpacesPointwise(s[1..]);
      assert forall i :: 0 < i < |s| ==> ReplaceSpaces(s)[i] == ReplaceSpaces(s[1..])[i - 1];
    }
  }

  /** The normalised label of a (possibly null) English translation. */
  function Normalize(english: Option<string>): string
  {
    match english
    case None => UNKNOWN
    case Some(t) => ReplaceSpaces(Title(t))
  }

  /**
   * A present translation is title-cased character by character with every
   * space turned into '_'; a null one yields exactly "Unknown"; in both cases
   * the label holds no space.
   */
  lemma {:induction false} NormalizeSpec(english: Option<string>)
    ensures english.None? ==> Normalize(english) == UNKNOWN
    ensures english.Some? ==>
              |Normalize(english)| == |english.value|
              && forall i :: 0 <= i < |english.value| ==>
                   Normalize(english)[i] == if english.value[i] == ' ' then '_' else TitleRuleAt(english.value, i)
    ensures ' ' !in Normalize(english)
  {
    if english.Some? {
      var t := english.value;
      TitlePointwise(t);
      ReplaceSpacesPointwise(Title(t));
      var r := Normalize(english);
      forall i | 0 <= i < |r| ensures r[i] != ' ' {
        if t[i] != ' ' {
          assert r[i] == TitleRuleAt(t, i);
        }
      }
    } else {
      assert UNKNOWN == ['U', 'n', 'k', 'n', 'o', 'w', 'n'];
    }
  }

  /** Normalising a translation that is already a normalised label changes nothing. */
  lemma {:induction false} NormalizeIdempotent(t: string)
    ensures Normalize(Some(Normalize(Some(t)))) == Normalize(Some(t))
  {
    var n := Normalize(Some(t));
    NormalizeSpec(Some(t));
    NormalizeSpec(Some(n));
    forall i | 0 <= i < |n|
      ensures Normalize(Some(n))[i] == n[i]
    {
      assert IsLetter(n[i]) == IsLetter(t[i]);
      if i > 0 {
        assert IsLetter(n[i - 1]) == IsLetter(t[i - 1]);
      }
    }
  }

  // ---------------------------------------------------------------------
  // The mapping table
  // ---------------------------------------------------------------------

  /** A row of the translation table: product_category_name, product_category_name_english. */
  datatype CategoryTranslation = CategoryTranslation(name: Option<string>, english: Option<string>)

  /** A row of the mapping table: original_portuguese_category, english_translation, normalized_category. */
  datatype MappingRow = MappingRow(original: Option<string>, english: Option<string>, normalized: string)

  type MappingTable = seq<MappingRow>

  /** One mapping row per translation row, in order, before duplicates are dropped. */
  function MappingRows(cats: seq<CategoryTranslation>): (rows: MappingTable)
    ensures |rows| == |cats|
  {
    seq(|cats|, i requires 0 <= i < |cats| => MappingRow(cats[i].name, cats[i].english, Normalize(cats[i].english)))
  }

  /** The table create_initial_mapping stores: the mapping rows minus exact duplicates, first occurrence kept. */
  function BuildMapping(cats: seq<CategoryTranslation>): MappingTable
  {
    DropDuplicates(MappingRows(cats))
  }

  /**
   * A mapping row answers a raw label when its original label equals it. A
   * null never equals anything, so a null raw label or a null original matches
   * nothing.
   */
  predicate Matches(row: MappingRow, raw: Option<string>)
  {
    raw.Some? && row.original == raw
  }

  /** No row before position i matches. */
  predicate NoMatchBefore(table: MappingTable, raw: Option<string>, i: nat)
    requires i <= |table|
  {
    forall j :: 0 <= j < i ==> !Matches(table[j], raw)
  }

  /** The normalised label of the first row that matches `raw`, or "Unknown". */
  function Lookup(table: MappingTable, raw: Option<string>): (r: string)
    ensures (forall i :: 0 <= i < |table| ==> !Matches(table[i], raw)) ==> r == UNKNOWN
    ensures forall i :: 0 <= i < |table| && Matches(table[i], raw) && NoMatchBefore(table, raw, i) ==>
                          r == table[i].normalized
  {
    if table == [] then UNKNOWN
    else if Matches(table[0], raw) then table[0].normalized
    else
      var r := Lookup(table[1..], raw);
      assert forall i :: 0 < i < |table| ==> table[i] == table[1..][i - 1];
      r
  }

  /** The position of the first matching row, given that some row at or before `i` matches. */
  function FirstMatch(table: MappingTable, raw: Option<string>, i: nat): (f: nat)
    requires i < |table| && Matches(table[i], raw)
    ensures f <= i && Matches(table[f], raw) && NoMatchBefore(table, raw, f)
  {
    if exists j :: 0 <= j < i && Matches(table[j], raw) then
      var j :| 0 <= j < i && Matches(table[j], raw);
      FirstMatch(table, raw, j)
    else i
  }

  /** The first matching row is also the first occurrence of that row. */
  lemma {:induction false} FirstMatchIsFirstOccurrence(table: MappingTable, raw: Option<string>, f: nat)
    requires f < |table| && Matches(table[f], raw) && NoMatchBefore(table, raw, f)
    ensures FirstIndex(table, table[f]) == f
  {
    var k := FirstIndex(table, table[f]);
    assert forall j :: 0 <= j < k ==> table[..k][j] == table[j];
    assert Matches(table[k], raw);
  }

  /** Dropping duplicate rows never changes what a lookup answers. */
  lemma {:induction false} LookupDropDuplicates(rows: MappingTable, raw: Option<string>)
    ensures Lookup(DropDuplicates(rows), raw) == Lookup(rows, raw)
  {
    var d := DropDuplicates(rows);
    DropDuplicatesKeepsFirst(rows);
    if i :| 0 <= i < |rows| && Matches(rows[i], raw) {
      var f := FirstMatch(rows, raw, i);
      var x := rows[f];
      assert x in d;
      var p :| 0 <= p < |d| && d[p] == x;
      FirstMatchIsFirstOccurrence(rows, raw, f);
      forall j | 0 <= j < p ensures !Matches(d[j], raw) {
        var k := FirstIndex(rows, d[j]);
        assert k < f && rows[k] == d[j];
      }
      assert NoMatchBefore(d, raw, p);
    } else {
      forall p | 0 <= p < |d| ensures !Matches(d[p], raw) {
        var k := FirstIndex(rows, d[p]);
        assert rows[k] == d[p];
      }
    }
  }

  /**
   * Looking up a raw label in the table built from the translation table
   * answers the normalised translation of the first translation row with that
   * name, or "Unknown" when no row has it.
   */
  lemma {:induction false} LookupBuiltMapping(cats: seq<CategoryTranslation>, name: string)
    ensures (forall i :: 0 <= i < |cats| ==> cats[i].name != Some(name)) ==>
              Lookup(BuildMapping(cats), Some(name)) == UNKNOWN
    ensures forall i :: 0 <= i < |cats| && cats[i].name == Some(name) && NoNameBefore(cats, name, i) ==>
              Lookup(BuildMapping(cats), Some(name)) == Normalize(cats[i].english)
  {
    var rows := MappingRows(cats);
    LookupDropDuplicates(rows, Some(name));
    assert forall i :: 0 <= i < |cats| ==> (Matches(rows[i], Some(name)) <==> cats[i].name == Some(name));
    forall i | 0 <= i < |cats| && cats[i].name == Some(name) && NoNameBefore(cats, name, i)
      ensures Lookup(rows, Some(name)) == Normalize(cats[i].english)
    {
      assert NoMatchBefore(rows, Some(name), i);
    }
  }

  /** No translation row before position i has the given name. */
  predicate NoNameBefore(cats: seq<CategoryTranslation>, name: string, i: nat)
    requires i <= |cats|
  {
    forall j :: 0 <= j < i ==> cats[j].name != Some(name)
  }

  // ---------------------------------------------------------------------
  // The mapper object
  // ---------------------------------------------------------------------

  datatype MapperError = MappingFileNotFound

  class Mapper {
    /** mapping_df: None until a table is built or loaded. */
    var mapping: Option<MappingTable>
    /** The contents of mapping_file: None when no such file exists. */
    var file: Option<MappingTable>

    constructor (file: Option<MappingTable>)
      ensures mapping == None && this.file == file
    {
      mapping := None;
      this.file := file;
    }

    /** Builds the mapping from the translation table and saves it. */
    method CreateInitialMapping(cats: seq<CategoryTranslation>)
      modifies this
      ensures mapping == Some(BuildMapping(cats))
      ensures file == mapping
    {
      mapping := Some(BuildMapping(cats));
      SaveMapping();
    }

    /** Reads the saved mapping; fails, changing nothing, when there is no file. */
    method LoadMapping() returns (outcome: Outcome<MapperError>)
      modifies this`mapping
      ensures file.None? ==> outcome == Fail(MappingFileNotFound) && mapping == old(mapping)
      ensures file.Some? ==> outcome == Pass && mapping == file
    {
      if file.Some? {
        mapping := file;
        outcome := Pass;
      } else {
        outcome := Fail(MappingFileNotFound);
      }
    }

    /** Writes the mapping to the file when there is one to write. */
    method SaveMapping()
      modifies this`file
      ensures file == if mapping.Some? then mapping else old(file)
    {
      if mapping.Some? {
        file := mapping;
      }
    }

    /**
     * The normalised label of a raw label, loading the saved mapping first
     * when none is held; fails exactly when nothing was built or loaded and
     * no file exists.
     */
    method GetNormalizedCategory(raw: Option<string>) returns (r: Result<string, MapperError>)
      modifies this`mapping
      ensures old(mapping).Some? ==> mapping == old(mapping) && r == Success(Lookup(mapping.value, raw))
      ensures old(mapping).None? && file.Some? ==> mapping == file && r == Success(Lookup(file.value, raw))
      ensures old(mapping).None? && file.None? ==> mapping == None && r == Failure(MappingFileNotFound)
    {
      if mapping.None? {
        var loaded := LoadMapping();
        if loaded.Fail? {
          return Failure(loaded.error);
        }
      }
      r := Success(Lookup(mapping.value, raw));
    }
  }

  /**
   * Build, save and read back: a second mapper over the file the first one
   * saved answers every raw label as the translation rows do, duplicates and
   * all.
   */
  method BuildSaveAndReload(cats: seq<CategoryTranslation>, existing: Option<MappingTable>, raw: Option<string>)
    returns (r: Result<string, MapperError>)
    ensures r == Success(Lookup(MappingRows(cats), raw))
  {
    var writer := new Mapper(existing);
    writer.CreateInitialMapping(cats);
    var reader := new Mapper(writer.file);
    r := reader.GetNormalizedCategory(raw);
    LookupDropDuplicates(MappingRows(cats), raw);
  }
}
