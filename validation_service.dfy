/** Name validation for libraries and notebooks: not blank, at most 255
    characters after trimming, no character that is invalid in a Windows
    file name or path, and unique (ignoring case) among the existing
    libraries, or among the notebooks of the same library. */
module Validation {
  import opened Common
  import opened Models
  import opened DocumentLists

  /** `ValidationResult`: `errorMessage` is `None` for success. */
  datatype ValidationResult = ValidationResult(isValid: bool, errorMessage: Option<string>)

  function Success(): ValidationResult { ValidationResult(true, None) }
  function Fail(message: string): ValidationResult { ValidationResult(false, Some(message)) }

  const MaxNameLength := 255

  /** `char.IsWhiteSpace`: the Unicode space separators, line and paragraph
      separators, and the control characters 9-13 and 0x85. */
  predicate IsWhiteSpace(c: char)
    ensures c as int < 0x80 ==> (IsWhiteSpace(c) <==> c == ' ' || '\t' <= c <= '\r')
  {
    var n := c as int;
    (9 <= n <= 13) || n == 0x20 || n == 0x85 || n == 0xA0 || n == 0x1680 ||
    (0x2000 <= n <= 0x200A) || n == 0x2028 || n == 0x2029 || n == 0x202F ||
    n == 0x205F || n == 0x3000
  }

  /** `string.IsNullOrWhiteSpace`: missing, or nothing left once trimmed. */
  predicate IsNullOrWhiteSpace(name: Option<string>)
    ensures IsNullOrWhiteSpace(name) <==> name.None? || Trim(name.value) == []
  {
    name.None? || forall i :: 0 <= i < |name.value| ==> IsWhiteSpace(name.value[i])
  }

  /** Drops the leading white space. */
  function TrimStart(s: string): (r: string)
    ensures |r| <= |s| && r == s[|s| - |r|..]
    ensures forall i :: 0 <= i < |s| - |r| ==> IsWhiteSpace(s[i])
    ensures r == [] || !IsWhiteSpace(r[0])
    ensures r == [] <==> forall i :: 0 <= i < |s| ==> IsWhiteSpace(s[i])
  {
    if |s| > 0 && IsWhiteSpace(s[0]) then TrimStart(s[1..]) else s
  }

  /** Drops the trailing white space. */
  function TrimEnd(s: string): (r: string)
    ensures |r| <= |s| && r == s[..|r|]
    ensures forall i :: |r| <= i < |s| ==> IsWhiteSpace(s[i])
    ensures r == [] || !IsWhiteSpace(r[|r| - 1])
    ensures r == [] <==> forall i :: 0 <= i < |s| ==> IsWhiteSpace(s[i])
  {
    if |s| > 0 && IsWhiteSpace(s[|s| - 1]) then TrimEnd(s[..|s| - 1]) else s
  }

  /** `string.Trim()`: the stretch of `s` between its leading and its
      trailing white space, empty exactly when `s` is all white space. */
  function Trim(s: string): (r: string)
    ensures r == [] <==> forall i :: 0 <= i < |s| ==> IsWhiteSpace(s[i])
    ensures r != [] ==> !IsWhiteSpace(r[0]) && !IsWhiteSpace(r[|r| - 1])
  {
    TrimEnd(TrimStart(s))
  }

  /** A name that is not blank keeps a non-blank core after trimming: it
      starts and ends with a non-white-space character. */
  lemma TrimOfNonBlank(s: string)
    requires !IsNullOrWhiteSpace(Some(s))
    ensures |Trim(s)| > 0 && !IsWhiteSpace(Trim(s)[0]) && !IsWhiteSpace(Trim(s)[|Trim(s)| - 1])
  {
    var a := TrimStart(s);
    assert a != [];
    var b := TrimEnd(a);
    assert b != [] by {
      assert !IsWhiteSpace(a[0]);
    }
    assert b[0] == a[0];
    assert Trim(s) == b;
  }

  /** A blank name trims to the empty string. */
  lemma TrimOfBlank(s: string)
    requires IsNullOrWhiteSpace(Some(s))
    ensures Trim(s) == []
  {
    assert TrimStart(s) == [];
  }

  /** A string with no white space at either end is its own trim. */
  lemma TrimKeepsTrimmed(s: string)
    requires s == [] || (!IsWhiteSpace(s[0]) && !IsWhiteSpace(s[|s| - 1]))
    ensures Trim(s) == s
  {
  }

  /** Trimming is idempotent. */
  lemma TrimIdempotent(s: string)
    ensures Trim(Trim(s)) == Trim(s)
  {
    var t := Trim(s);
    if |t| > 0 {
      TrimOfNonBlank(s) by {
        assert !IsWhiteSpace(t[0]);
        assert t[0] == TrimStart(s)[0];
      }
      assert TrimStart(t) == t;
      assert TrimEnd(t) == t;
    }
  }

  /** The characters `Path.GetInvalidFileNameChars` and
      `Path.GetInvalidPathChars` report on Windows. */
  predicate IsInvalidPathChar(c: char)
    ensures ('a' <= c <= 'z' || 'A' <= c <= 'Z' || '0' <= c <= '9' || c == ' ' || c == '-' || c == '_' || c == '.') ==>
              !IsInvalidPathChar(c)
  {
    c as int < 32 || c == '"' || c == '<' || c == '>' || c == '|' || c == ':' ||
    c == '*' || c == '?' || c == '\\' || c == '/'
  }

  predicate HasInvalidChar(s: string)
  {
    exists i :: 0 <= i < |s| && IsInvalidPathChar(s[i])
  }

  /** Upper-casing of ASCII letters; other characters are kept. */
  function ToUpperAscii(c: char): char
  {
    if 'a' <= c <= 'z' then (c as int - 32) as char else c
  }

  /** `Equals(…, StringComparison.OrdinalIgnoreCase)`, with ASCII case folding. */
  predicate EqualsIgnoreCase(a: string, b: string)
  {
    |a| == |b| && forall i :: 0 <= i < |a| ==> ToUpperAscii(a[i]) == ToUpperAscii(b[i])
  }

  /** Case-insensitive equality is an equivalence that contains equality. */
  lemma EqualsIgnoreCaseEquivalence(a: string, b: string, c: string)
    ensures EqualsIgnoreCase(a, a)
    ensures EqualsIgnoreCase(a, b) ==> EqualsIgnoreCase(b, a)
    ensures EqualsIgnoreCase(a, b) && EqualsIgnoreCase(b, c) ==> EqualsIgnoreCase(a, c)
  {
  }

  /** A library already carries the name, up to ASCII case. */
  predicate LibraryNameTaken(name: string, existing: seq<Library>)
    ensures (exists i :: 0 <= i < |existing| && existing[i].name == name) ==> LibraryNameTaken(name, existing)
    ensures LibraryNameTaken(name, existing) ==> exists i :: 0 <= i < |existing| && |existing[i].name| == |name|
  {
    exists i :: 0 <= i < |existing| && EqualsIgnoreCase(existing[i].name, name)
  }

  /** A notebook of the same library already carries the name, up to
      ASCII case; notebooks of other libraries never count. */
  predicate NotebookNameTaken(name: string, libraryId: Guid, existing: seq<Notebook>)
    ensures (exists i :: 0 <= i < |existing| && existing[i].libraryId == libraryId && existing[i].name == name) ==>
              NotebookNameTaken(name, libraryId, existing)
    ensures NotebookNameTaken(name, libraryId, existing) ==> exists i :: 0 <= i < |existing| && existing[i].libraryId == libraryId
  {
    exists i :: 0 <= i < |existing| && existing[i].libraryId == libraryId && EqualsIgnoreCase(existing[i].name, name)
  }

  /** The checks shared by both validators, applied in order to the name as
      given (blankness) and then to the trimmed name; `None` when all pass. */
  function CheckNameShape(kind: string, name: Option<string>): (r: Option<string>)
    ensures r.None? <==> !IsNullOrWhiteSpace(name) && |Trim(name.value)| <= MaxNameLength && !HasInvalidChar(Trim(name.value))
    ensures IsNullOrWhiteSpace(name) ==> r == Some(kind + " name cannot be empty.")
    ensures !IsNullOrWhiteSpace(name) && |Trim(name.value)| > MaxNameLength ==>
              r == Some(kind + " name cannot be longer than 255 characters.")
    ensures !IsNullOrWhiteSpace(name) && |Trim(name.value)| <= MaxNameLength && HasInvalidChar(Trim(name.value)) ==>
              r == Some(kind + " name contains invalid characters (\\ / : * ? \" < > |).")
  {
    if IsNullOrWhiteSpace(name) then Some(kind + " name cannot be empty.")
    else
      var trimmed := Trim(name.value);
      if |trimmed| > MaxNameLength then Some(kind + " name cannot be longer than 255 characters.")
      else if HasInvalidChar(trimmed) then Some(kind + " name contains invalid characters (\\ / : * ? \" < > |).")
      else None
  }

  /** `ValidateLibraryName`: library names are unique across all libraries. */
  function ValidateLibraryName(name: Option<string>, existing: seq<Library>): (r: ValidationResult)
    ensures r.isValid <==> r.errorMessage.None?
    ensures r.isValid <==>
      && !IsNullOrWhiteSpace(name)
      && |Trim(name.value)| <= MaxNameLength
      && !HasInvalidChar(Trim(name.value))
      && !LibraryNameTaken(Trim(name.value), existing)
    ensures CheckNameShape("Library", name).Some? ==> r == Fail(CheckNameShape("Library", name).value)
    ensures CheckNameShape("Library", name).None? && LibraryNameTaken(Trim(name.value), existing) ==>
              r == Fail("A library with the name '" + Trim(name.value) + "' already exists.")
  {
    match CheckNameShape("Library", name)
    case Some(message) => Fail(message)
    case None =>
      var trimmed := Trim(name.value);
      if LibraryNameTaken(trimmed, existing) then Fail("A library with the name '" + trimmed + "' already exists.")
      else Success()
  }

  /** `ValidateNotebookName`: notebook names are unique within one library. */
  function ValidateNotebookName(name: Option<string>, libraryId: Guid, existing: seq<Notebook>): (r: ValidationResult)
    ensures r.isValid <==> r.errorMessage.None?
    ensures r.isValid <==>
      && !IsNullOrWhiteSpace(name)
      && |Trim(name.value)| <= MaxNameLength
      && !HasInvalidChar(Trim(name.value))
      && !NotebookNameTaken(Trim(name.value), libraryId, existing)
    ensures CheckNameShape("Notebook", name).Some? ==> r == Fail(CheckNameShape("Notebook", name).value)
    ensures CheckNameShape("Notebook", name).None? && NotebookNameTaken(Trim(name.value), libraryId, existing) ==>
              r == Fail("A notebook with the name '" + Trim(name.value) + "' already exists in this library.")
  {
    match CheckNameShape("Notebook", name)
    case Some(message) => Fail(message)
    case None =>
      var trimmed := Trim(name.value);
      if NotebookNameTaken(trimmed, libraryId, existing) then
        Fail("A notebook with the name '" + trimmed + "' already exists in this library.")
      else Success()
  }

  /** Only the target library's notebooks matter: validating against all
      notebooks or against that library's notebooks gives the same result. */
  lemma NotebookUniquenessIsScoped(name: Option<string>, libraryId: Guid, existing: seq<Notebook>)
    ensures ValidateNotebookName(name, libraryId, existing) == ValidateNotebookName(name, libraryId, NotebooksOf(existing, libraryId))
  {
    if !IsNullOrWhiteSpace(name) {
      NameTakenIsScoped(Trim(name.value), libraryId, existing);
    }
  }

  /** A name is taken among all notebooks exactly when it is taken among
      the library's own. */
  lemma NameTakenIsScoped(t: string, libraryId: Guid, existing: seq<Notebook>)
    ensures NotebookNameTaken(t, libraryId, existing) == NotebookNameTaken(t, libraryId, NotebooksOf(existing, libraryId))
  {
    var scoped := NotebooksOf(existing, libraryId);
    if NotebookNameTaken(t, libraryId, existing) {
      var i :| 0 <= i < |existing| && existing[i].libraryId == libraryId && EqualsIgnoreCase(existing[i].name, t);
      assert existing[i] in scoped;
      var j :| 0 <= j < |scoped| && scoped[j] == existing[i];
    }
    if NotebookNameTaken(t, libraryId, scoped) {
      var j :| 0 <= j < |scoped| && scoped[j].libraryId == libraryId && EqualsIgnoreCase(scoped[j].name, t);
      assert scoped[j] in existing;
      var i :| 0 <= i < |existing| && existing[i] == scoped[j];
    }
  }

  /** Validation sees only the trimmed name: a name and its trimmed form get
      the same verdict (the messages quote the trimmed name either way). */
  lemma ValidationIgnoresSurroundingSpace(s: string, libraries: seq<Library>)
    ensures ValidateLibraryName(Some(s), libraries) == ValidateLibraryName(Some(Trim(s)), libraries)
  {
    if !IsNullOrWhiteSpace(Some(s)) {
      TrimOfNonBlank(s);
      TrimIdempotent(s);
      assert !IsNullOrWhiteSpace(Some(Trim(s))) by {
        assert !IsWhiteSpace(Trim(s)[0]);
      }
    } else {
      TrimOfBlank(s);
    }
  }

  /** ASCII upper-casing of a whole string. */
  function UpperAscii(s: string): (r: string)
    ensures |r| == |s| && forall i :: 0 <= i < |s| ==> r[i] == ToUpperAscii(s[i])
  {
    if s == [] then [] else [ToUpperAscii(s[0])] + UpperAscii(s[1..])
  }

  /** A library name clashes however it is cased: once a library named
      like the trimmed name in capitals exists ("NOTES"), the name
      ("Notes") is refused. */
  lemma LibraryClashIgnoresCase(name: string, existing: seq<Library>, i: nat)
    requires i < |existing| && existing[i].name == UpperAscii(Trim(name))
    ensures !ValidateLibraryName(Some(name), existing).isValid
  {
    var t := Trim(name);
    var u := existing[i].name;
    forall k | 0 <= k < |u|
      ensures ToUpperAscii(u[k]) == ToUpperAscii(t[k])
    {
      assert u[k] == ToUpperAscii(t[k]);
    }
    assert EqualsIgnoreCase(u, t);
  }
}
