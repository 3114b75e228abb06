/** The name-path rewrite and the two emptiness tests shared by the stages. */
module Utils {
  import opened Outcomes
  import opened Text
  import opened Constants

  /** The shapes of value the helpers are handed: JavaScript null, undefined, a string,
      or an array whose elements are given as the strings `join` renders them as. */
  datatype JsValue = Null | Undefined | Str(s: string) | Arr(items: seq<string>)

  /** JavaScript falsiness, restricted to these shapes. */
  predicate Falsy(v: JsValue) {
    v.Null? || v.Undefined? || v == Str("")
  }

  /** `isEmpty`: null, undefined, or a string with nothing but whitespace. */
  function IsEmpty(v: JsValue): (r: bool)
    ensures r <==> v.Null? || v.Undefined? || (v.Str? && AllWhitespace(v.s))
    ensures v.Arr? ==> !r
  {
    if v.Str? then TrimEmptyIff(v.s); Trim(v.s) == ""
    else v.Null? || v.Undefined?
  }

  /** `isArrayEmpty`: null, undefined, or an array of length zero; a string is never empty. */
  function IsArrayEmpty(v: JsValue): (r: bool)
    ensures r <==> v.Null? || v.Undefined? || (v.Arr? && v.items == [])
    ensures v.Str? ==> !r
  {
    v.Null? || v.Undefined? || (v.Arr? && |v.items| == 0)
  }

  /** `trimTrailingNodeSeparator`: a prefix of `s`, one character shorter exactly when
      `s` ends with the separator; only one separator is ever removed. */
  function TrimTrailingNodeSeparator(s: string): (r: string)
    ensures |s| - 1 <= |r| <= |s| && r == s[..|r|]
    ensures |r| < |s| <==> EndsWith(s, NAME_PATH_SEPARATOR)
  {
    if |s| > 0 && EndsWith(s, NAME_PATH_SEPARATOR) then s[..|s| - 1] else s
  }

  /** `getNamePathForStringifiedArray`: the array `JSON.parse` makes of `s`, if it makes one.
      `parseArray` stands for `JSON.parse` followed by `Array.isArray`; it yields None
      when the parse throws or gives something other than an array. */
  function GetNamePathForStringifiedArray(s: string, parseArray: string -> Option<seq<string>>): (r: JsValue)
    ensures r.Arr? || r == Str(s)
    ensures r.Arr? <==> parseArray(s).Some?
  {
    match parseArray(s)
    case Some(items) => Arr(items)
    case None => Str(s)
  }

  /** `normalizeNamePath`, in the source's order of precedence: falsy values and the
      empty array are returned as they are; a string already holding the separator is
      only trimmed; a stringified array becomes its elements, each preceded by the
      separator; anything else has its legacy separators replaced and is trimmed. */
  function NormalizeNamePath(v: JsValue, parseArray: string -> Option<seq<string>>): (r: JsValue)
    ensures v.Str? ==> r.Str?
    ensures v.Arr? ==> r.Str? || r == v
  {
    if Falsy(v) || (v.Arr? && |v.items| == 0) then v
    else if v.Str? && NAME_PATH_SEPARATOR in v.s then Str(TrimTrailingNodeSeparator(v.s))
    else
      var temp := if v.Str? then GetNamePathForStringifiedArray(v.s, parseArray) else v;
      if temp.Arr? then Str([NAME_PATH_SEPARATOR] + Join(temp.items, [NAME_PATH_SEPARATOR]))
      else Str(TrimTrailingNodeSeparator(Join(Split(temp.s, LEGACY_NAME_PATH_SEPARATOR), [NAME_PATH_SEPARATOR])))
  }

  /** Reference form of a name path built from segments: each segment preceded by
      the separator. */
  function Segments(items: seq<string>): string {
    if items == [] then "" else [NAME_PATH_SEPARATOR] + items[0] + Segments(items[1..])
  }

  lemma {:induction false} JoinIsSegments(items: seq<string>)
    requires items != []
    ensures [NAME_PATH_SEPARATOR] + Join(items, [NAME_PATH_SEPARATOR]) == Segments(items)
  {
    if |items| > 1 {
      JoinIsSegments(items[1..]);
    }
  }

  /** Falsy values and the empty array come back unchanged. */
  lemma NormalizeFalsy(v: JsValue, parseArray: string -> Option<seq<string>>)
    requires Falsy(v) || v == Arr([])
    ensures NormalizeNamePath(v, parseArray) == v
  {
  }

  /** A string that already contains the separator keeps every character, its `/`
      included, except at most one trailing separator; no parse is attempted. */
  lemma NormalizeCanonical(s: string, parseArray: string -> Option<seq<string>>)
    requires NAME_PATH_SEPARATOR in s
    ensures var r := NormalizeNamePath(Str(s), parseArray);
      && r.Str? && r.s == s[..|r.s|]
      && |r.s| == (if EndsWith(s, NAME_PATH_SEPARATOR) then |s| - 1 else |s|)
      && NormalizeNamePath(Str(s), parseArray) == NormalizeNamePath(Str(s), _ => None)
  {
  }

  /** A stringified array becomes its segments, each led by the separator, with no
      trimming; the empty array `[]` gives the lone separator. */
  lemma NormalizeStringifiedArray(s: string, parseArray: string -> Option<seq<string>>)
    requires s != "" && NAME_PATH_SEPARATOR !in s && parseArray(s).Some?
    ensures var items := parseArray(s).value;
      NormalizeNamePath(Str(s), parseArray)
        == Str(if items == [] then [NAME_PATH_SEPARATOR] else Segments(items))
  {
    var items := parseArray(s).value;
    if items != [] {
      JoinIsSegments(items);
    }
  }

  /** An array handed in directly is rendered the same way. */
  lemma NormalizeArray(items: seq<string>, parseArray: string -> Option<seq<string>>)
    requires items != []
    ensures NormalizeNamePath(Arr(items), parseArray) == Str(Segments(items))
  {
    JoinIsSegments(items);
  }

  /** Any other string has every `/` replaced by the separator, and then loses one
      trailing separator, which is there exactly when the input ended in `/`. */
  lemma NormalizeLegacy(s: string, parseArray: string -> Option<seq<string>>)
    requires s != "" && NAME_PATH_SEPARATOR !in s && parseArray(s).None?
    ensures var r := NormalizeNamePath(Str(s), parseArray);
      && r.Str?
      && |r.s| == (if EndsWith(s, LEGACY_NAME_PATH_SEPARATOR) then |s| - 1 else |s|)
      && (forall i :: 0 <= i < |r.s| ==>
            r.s[i] == if s[i] == LEGACY_NAME_PATH_SEPARATOR then NAME_PATH_SEPARATOR else s[i])
      && LEGACY_NAME_PATH_SEPARATOR !in r.s
  {
    SplitJoinIsReplace(s, LEGACY_NAME_PATH_SEPARATOR, NAME_PATH_SEPARATOR);
    var u := ReplaceChar(s, LEGACY_NAME_PATH_SEPARATOR, NAME_PATH_SEPARATOR);
    assert EndsWith(u, NAME_PATH_SEPARATOR) <==> EndsWith(s, LEGACY_NAME_PATH_SEPARATOR) by {
      assert u[|s| - 1] == (if s[|s| - 1] == LEGACY_NAME_PATH_SEPARATOR then NAME_PATH_SEPARATOR else s[|s| - 1]);
      assert s[|s| - 1] in s;
    }
  }

  /** Worked example: a legacy path has its slashes replaced. */
  lemma NormalizeLegacyExample(parseArray: string -> Option<seq<string>>)
    requires parseArray("a/b/c") == None
    ensures NormalizeNamePath(Str("a/b/c"), parseArray) == Str("a" + [NAME_PATH_SEPARATOR] + "b" + [NAME_PATH_SEPARATOR] + "c")
  {
    NormalizeLegacy("a/b/c", parseArray);
  }

  /** Worked example: a canonical path loses its trailing separator. */
  lemma NormalizeCanonicalExample(parseArray: string -> Option<seq<string>>)
    ensures NormalizeNamePath(Str("a" + [NAME_PATH_SEPARATOR] + "b" + [NAME_PATH_SEPARATOR]), parseArray)
      == Str("a" + [NAME_PATH_SEPARATOR] + "b")
  {
    var sep := NAME_PATH_SEPARATOR;
    var canonical := "a" + [sep] + "b" + [sep];
    assert canonical[1] == sep;
    assert canonical[..3] == "a" + [sep] + "b";
  }

  /** Worked example: an array becomes its separator-led segments. */
  lemma NormalizeArrayExample(parseArray: string -> Option<seq<string>>)
    ensures NormalizeNamePath(Arr(["a", "b"]), parseArray)
      == Str([NAME_PATH_SEPARATOR] + "a" + [NAME_PATH_SEPARATOR] + "b")
  {
    NormalizeArray(["a", "b"], parseArray);
    assert Segments(["b"]) == [NAME_PATH_SEPARATOR] + "b";
  }
}
