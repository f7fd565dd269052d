/**
 * Translation of a parameter name into an environment-variable key
 * (AwsParameterStoreService.toEnvironmentVariable, both overloads).
 *
 * Character classes are ASCII: Character.isLetter, isDigit and toUpperCase
 * are restricted to 'a'..'z', 'A'..'Z' and '0'..'9'.
 */
module EnvNames {
  import opened Wrappers

  /** The naming modes of the path listing. */
  const NAMING_BASENAME: string := "basename"
  const NAMING_RELATIVE: string := "relative"
  const NAMING_ABSOLUTE: string := "absolute"

  /** Character.isLetter, restricted to ASCII. */
  predicate IsLetter(c: char) { 'a' <= c <= 'z' || 'A' <= c <= 'Z' }

  /** Character.isDigit, restricted to ASCII. */
  predicate IsDigit(c: char) { '0' <= c <= '9' }

  /** The characters an environment-variable key may hold. */
  predicate IsEnvChar(c: char) { 'A' <= c <= 'Z' || '0' <= c <= '9' || c == '_' }

  /** Upper-cases an ASCII lower-case letter; every other character is kept. */
  function ToUpper(c: char): (u: char)
    ensures IsLetter(c) ==> 'A' <= u <= 'Z'
    ensures 'A' <= c <= 'Z' || !IsLetter(c) ==> u == c
    ensures 'a' <= c <= 'z' ==> u as int == c as int - 32
  {
    if 'a' <= c <= 'z' then (c as int - 32) as char else c
  }

  /** The key character for one name character. */
  function EnvChar(c: char): (r: char)
    ensures IsEnvChar(r)
    ensures r == '_' <==> !IsLetter(c) && !IsDigit(c)
    ensures IsLetter(c) ==> r == ToUpper(c)
    ensures IsDigit(c) ==> r == c
  {
    if IsLetter(c) then ToUpper(c)
    else if IsDigit(c) then c
    else '_'
  }

  /** One key character per name character, in order; nothing collapsed. */
  function Encode(s: string): (r: string)
    ensures |r| == |s|
  {
    if s == [] then [] else [EnvChar(s[0])] + Encode(s[1..])
  }

  /** Character k of the encoding is the key character of character k. */
  lemma {:induction false} EncodeAt(s: string, k: nat)
    requires k < |s|
    ensures Encode(s)[k] == EnvChar(s[k])
  {
    if k > 0 {
      EncodeAt(s[1..], k - 1);
    }
  }

  /** The encoding is the one string that agrees with it character by character. */
  lemma EncodeOf(s: string, r: string)
    requires |r| == |s|
    requires forall k :: 0 <= k < |s| ==> r[k] == EnvChar(s[k])
    ensures Encode(s) == r
  {
    forall k | 0 <= k < |s|
      ensures Encode(s)[k] == r[k]
    {
      EncodeAt(s, k);
    }
  }

  /** String.lastIndexOf(char): the last index holding c, or -1. */
  function LastIndexOf(s: string, c: char): (i: int)
    ensures -1 <= i < |s|
    ensures 0 <= i ==> s[i] == c
    ensures forall j :: i < j < |s| ==> s[j] != c
  {
    if s == [] then -1
    else if s[|s| - 1] == c then |s| - 1
    else LastIndexOf(s[..|s| - 1], c)
  }

  /** The final path segment of a name: its longest suffix without a '/'. */
  function Basename(s: string): string
  {
    if s == [] || s[|s| - 1] == '/' then [] else Basename(s[..|s| - 1]) + [s[|s| - 1]]
  }

  /** The offset chosen from the path and the naming mode, before a '/' is skipped. */
  function StartOffset(name: string, path: Option<string>, naming: Option<string>): nat
  {
    match path
    case None => 0
    case Some(p) =>
      if naming == Some(NAMING_RELATIVE) then (if |name| > |p| then |p| else 0)
      else if naming == Some(NAMING_ABSOLUTE) then 1
      else LastIndexOf(name, '/') + 1
  }

  /** The offset the key starts from: one '/' at the start offset is skipped. */
  function KeyStart(name: string, path: Option<string>, naming: Option<string>): (from: nat)
    requires StartOffset(name, path, naming) < |name|
    ensures from <= |name|
  {
    var start := StartOffset(name, path, naming);
    if name[start] == '/' then start + 1 else start
  }

  /**
   * The key for `name`, or None where reading the character at the start
   * offset is out of range (the source throws there and its callers skip
   * the parameter).
   */
  function EnvironmentVariable(name: string, path: Option<string>, naming: Option<string>): Option<string>
  {
    var start := StartOffset(name, path, naming);
    if start >= |name| then None
    else Some(Encode(name[KeyStart(name, path, naming)..]))
  }

  /** The character loop of the translation: encodes the name from `start` on, one character at a time. */
  method EncodeFrom(name: string, start: nat) returns (buffer: string)
    requires start <= |name|
    ensures buffer == Encode(name[start..])
  {
    buffer := [];
    var i := start;
    while i < |name|
      invariant start <= i <= |name|
      invariant |buffer| == i - start
      invariant forall k :: 0 <= k < |buffer| ==> buffer[k] == EnvChar(name[start + k])
    {
      var c := name[i];
      if IsLetter(c) {
        buffer := buffer + [ToUpper(c)];
      } else if IsDigit(c) {
        buffer := buffer + [c];
      } else {
        buffer := buffer + ['_'];
      }
      i := i + 1;
    }
    EncodeOf(name[start..], buffer);
  }

  /** The imperative translation: a start offset, then one appended character per name character. */
  method ToEnvironmentVariable(name: string, path: Option<string>, naming: Option<string>) returns (r: Option<string>)
    ensures r == EnvironmentVariable(name, path, naming)
  {
    var start: nat := 0;
    if path.Some? {
      if naming == Some(NAMING_RELATIVE) {
        if |name| > |path.value| {
          start := |path.value|;
        }
      } else if naming == Some(NAMING_ABSOLUTE) {
        start := 1;
      } else {
        start := LastIndexOf(name, '/') + 1;
      }
    }
    if start >= |name| {
      return None;
    }
    if name[start] == '/' {
      start := start + 1;
    }
    var buffer := EncodeFrom(name, start);
    return Some(buffer);
  }

  /** The one-argument overload: no path, no naming (flat listing). */
  method ToEnvironmentVariableFlat(name: string) returns (r: Option<string>)
    ensures r == EnvironmentVariable(name, None, None)
  {
    r := ToEnvironmentVariable(name, None, None);
  }

  /**
   * A key has one character per name character from the key start on:
   * letters upper-cased, digits kept, anything else '_'; so a key is made
   * only of 'A'..'Z', '0'..'9' and '_'.
   */
  lemma KeyCharacters(name: string, path: Option<string>, naming: Option<string>)
    requires EnvironmentVariable(name, path, naming).Some?
    ensures StartOffset(name, path, naming) < |name|
    ensures |EnvironmentVariable(name, path, naming).value| == |name| - KeyStart(name, path, naming)
    ensures forall k :: 0 <= k < |EnvironmentVariable(name, path, naming).value| ==>
      EnvironmentVariable(name, path, naming).value[k] == EnvChar(name[KeyStart(name, path, naming) + k]) &&
      IsEnvChar(EnvironmentVariable(name, path, naming).value[k])
  {
    var from := KeyStart(name, path, naming);
    forall k | 0 <= k < |name| - from
      ensures Encode(name[from..])[k] == EnvChar(name[from + k])
    {
      EncodeAt(name[from..], k);
    }
  }

  /** Without a path the naming mode is ignored and only one leading '/' is dropped. */
  lemma FlatKey(name: string, naming: Option<string>)
    ensures EnvironmentVariable(name, None, naming) ==
      if name == [] then None
      else if name[0] == '/' then Some(Encode(name[1..]))
      else Some(Encode(name))
  {
  }

  /** Absolute naming drops index 0 (and one more '/' right after it). */
  lemma AbsoluteKey(name: string, path: string)
    ensures EnvironmentVariable(name, Some(path), Some(NAMING_ABSOLUTE)) ==
      if |name| <= 1 then None
      else if name[1] == '/' then Some(Encode(name[2..]))
      else Some(Encode(name[1..]))
  {
  }

  /** The suffix after the last '/' is the final path segment. */
  lemma {:induction false} AfterLastSlashIsBasename(s: string)
    ensures s[LastIndexOf(s, '/') + 1..] == Basename(s)
  {
    if s != [] && s[|s| - 1] != '/' {
      var init := s[..|s| - 1];
      AfterLastSlashIsBasename(init);
      assert LastIndexOf(s, '/') == LastIndexOf(init, '/');
      assert s[LastIndexOf(s, '/') + 1..] == init[LastIndexOf(init, '/') + 1..] + [s[|s| - 1]];
    }
  }

  /** Under basename naming a name that is empty or ends in '/' gets no key. */
  lemma BasenameNoKey(name: string, path: string, naming: Option<string>)
    requires naming != Some(NAMING_RELATIVE) && naming != Some(NAMING_ABSOLUTE)
    requires name == [] || name[|name| - 1] == '/'
    ensures EnvironmentVariable(name, Some(path), naming) == None
  {
    if name != [] {
      assert LastIndexOf(name, '/') == |name| - 1;
      assert StartOffset(name, Some(path), naming) == |name|;
    }
  }

  /** Under basename naming the key of any other name starts just after its last '/'. */
  lemma BasenameStart(name: string, path: string, naming: Option<string>)
    requires naming != Some(NAMING_RELATIVE) && naming != Some(NAMING_ABSOLUTE)
    requires name != [] && name[|name| - 1] != '/'
    ensures StartOffset(name, Some(path), naming) < |name|
    ensures KeyStart(name, Some(path), naming) == LastIndexOf(name, '/') + 1
  {
    var start := LastIndexOf(name, '/') + 1;
    assert StartOffset(name, Some(path), naming) == start;
    assert name[start] != '/';
  }

  /** Under basename naming any other name is keyed by its final segment. */
  lemma BasenameFinalSegment(name: string, path: string, naming: Option<string>)
    requires naming != Some(NAMING_RELATIVE) && naming != Some(NAMING_ABSOLUTE)
    requires name != [] && name[|name| - 1] != '/'
    ensures EnvironmentVariable(name, Some(path), naming) == Some(Encode(Basename(name)))
  {
    BasenameStart(name, path, naming);
    AfterLastSlashIsBasename(name);
  }

  /**
   * Basename naming, and any naming other than relative or absolute (null
   * included), keys a name by its final segment; a name that is empty or
   * ends in '/' gets no key.
   */
  lemma BasenameKey(name: string, path: string, naming: Option<string>)
    requires naming != Some(NAMING_RELATIVE) && naming != Some(NAMING_ABSOLUTE)
    ensures EnvironmentVariable(name, Some(path), naming) ==
      if name == [] || name[|name| - 1] == '/' then None else Some(Encode(Basename(name)))
  {
    if name == [] || name[|name| - 1] == '/' {
      BasenameNoKey(name, path, naming);
    } else {
      BasenameFinalSegment(name, path, naming);
    }
  }

  /**
   * Relative naming drops the path and the '/' after it, so the paths
   * "p" and "p/" give the same key.
   */
  lemma RelativeKey(path: string, rest: string)
    requires rest != [] && rest[0] != '/'
    ensures EnvironmentVariable(path + "/" + rest, Some(path), Some(NAMING_RELATIVE)) == Some(Encode(rest))
    ensures EnvironmentVariable(path + "/" + rest, Some(path + "/"), Some(NAMING_RELATIVE)) == Some(Encode(rest))
  {
    var name := path + "/" + rest;
    assert name[|path|] == '/';
    assert name[|path| + 1] == rest[0];
    assert name[|path| + 1..] == rest;
  }

  /** Relative naming of a name no longer than the path starts from index 0. */
  lemma RelativeShortName(name: string, path: string)
    requires |name| <= |path|
    ensures EnvironmentVariable(name, Some(path), Some(NAMING_RELATIVE)) == EnvironmentVariable(name, None, None)
  {
  }

  /** Relative naming of a name longer than the path cuts at the path's length, whether or not
      the name lies under the path, and skips one '/' found there. */
  lemma RelativeLongName(name: string, path: string)
    ensures |name| > |path| ==>
      EnvironmentVariable(name, Some(path), Some(NAMING_RELATIVE)) ==
        Some(Encode(if name[|path|] == '/' then name[|path| + 1..] else name[|path|..]))
  {
  }

  /** The path is not checked against the name: "/other/xy" under "/service" keys "Y". */
  lemma RelativeOutsidePath()
    ensures EnvironmentVariable("/other/xy", Some("/service"), Some(NAMING_RELATIVE)) == Some("Y")
  {
    var name := "/other/xy";
    assert StartOffset(name, Some("/service"), Some(NAMING_RELATIVE)) == 8;
    assert name[8] == 'y';
    assert KeyStart(name, Some("/service"), Some(NAMING_RELATIVE)) == 8;
    assert name[8..] == "y";
    EncodeOf("y", "Y");
  }

  /** The basename value is the default: it behaves exactly as a null or unknown naming. */
  lemma BasenameIsDefault(name: string, path: string, naming: Option<string>)
    requires naming != Some(NAMING_RELATIVE) && naming != Some(NAMING_ABSOLUTE)
    ensures EnvironmentVariable(name, Some(path), Some(NAMING_BASENAME)) ==
            EnvironmentVariable(name, Some(path), naming)
  {
    assert NAMING_BASENAME != NAMING_RELATIVE by { assert NAMING_BASENAME[0] != NAMING_RELATIVE[0]; }
    assert NAMING_BASENAME != NAMING_ABSOLUTE by { assert NAMING_BASENAME[1] != NAMING_ABSOLUTE[1]; }
  }

  /** Exactly when translation fails (the parameter is then skipped). */
  lemma TranslationFails(name: string, path: Option<string>, naming: Option<string>)
    ensures EnvironmentVariable(name, path, naming).None? <==>
      name == [] ||
      (path.Some? && naming == Some(NAMING_ABSOLUTE) && |name| == 1) ||
      (path.Some? && naming != Some(NAMING_RELATIVE) && naming != Some(NAMING_ABSOLUTE) && name[|name| - 1] == '/')
  {
    if path.Some? && naming != Some(NAMING_RELATIVE) && naming != Some(NAMING_ABSOLUTE) && name != [] {
      if name[|name| - 1] == '/' {
        assert LastIndexOf(name, '/') == |name| - 1;
      }
    }
  }

  /** Symbols other than letters and digits become underscores. */
  lemma FlatExampleSymbols()
    ensures EnvironmentVariable("*X()_test", None, None) == Some("_X___TEST")
  {
    var name := "*X()_test";
    assert KeyStart(name, None, None) == 0;
    assert name[0..] == name;
    EncodeOf(name, "_X___TEST");
  }

  /** Digits are kept and letters upper-cased. */
  lemma FlatExampleDigits()
    ensures EnvironmentVariable("123abCD", None, None) == Some("123ABCD")
  {
    var name := "123abCD";
    assert KeyStart(name, None, None) == 0;
    assert name[0..] == name;
    EncodeOf(name, "123ABCD");
  }

  /** A plain lower-case name is upper-cased. */
  lemma FlatExamplePlain()
    ensures EnvironmentVariable("name3", None, None) == Some("NAME3")
  {
    var name := "name3";
    assert KeyStart(name, None, None) == 0;
    assert name[0..] == name;
    EncodeOf(name, "NAME3");
  }

  /** Basename naming, given or defaulted, keys a name by its last segment. */
  lemma BasenameExamples()
    ensures EnvironmentVariable("/service/name1", Some("/service/"), Some(NAMING_BASENAME)) == Some("NAME1")
    ensures EnvironmentVariable("/service/name1", Some("/service"), None) == Some("NAME1")
  {
    var name := "/service/name1";
    assert name[8] == '/';
    assert LastIndexOf(name, '/') == 8;
    assert StartOffset(name, Some("/service/"), Some(NAMING_BASENAME)) == 9;
    assert StartOffset(name, Some("/service"), None) == 9;
    assert name[9] == 'n';
    assert KeyStart(name, Some("/service/"), Some(NAMING_BASENAME)) == 9;
    assert KeyStart(name, Some("/service"), None) == 9;
    assert name[9..] == "name1";
    EncodeOf("name1", "NAME1");
  }

  /** Absolute naming keeps every segment. */
  lemma AbsoluteExample()
    ensures EnvironmentVariable("/service/name1", Some("/service"), Some(NAMING_ABSOLUTE)) == Some("SERVICE_NAME1")
  {
    var name := "/service/name1";
    assert StartOffset(name, Some("/service"), Some(NAMING_ABSOLUTE)) == 1;
    assert name[1] == 's';
    assert KeyStart(name, Some("/service"), Some(NAMING_ABSOLUTE)) == 1;
    assert name[1..] == "service/name1";
    EncodeOf("service/name1", "SERVICE_NAME1");
  }

  /** Relative naming gives the same key with or without the path's trailing '/'. */
  lemma RelativeExample()
    ensures EnvironmentVariable("/service/app/name1", Some("/service/"), Some(NAMING_RELATIVE)) == Some("APP_NAME1")
    ensures EnvironmentVariable("/service/app/name1", Some("/service"), Some(NAMING_RELATIVE)) == Some("APP_NAME1")
  {
    var name := "/service/app/name1";
    assert StartOffset(name, Some("/service/"), Some(NAMING_RELATIVE)) == 9;
    assert StartOffset(name, Some("/service"), Some(NAMING_RELATIVE)) == 8;
    assert name[8] == '/' && name[9] == 'a';
    assert KeyStart(name, Some("/service/"), Some(NAMING_RELATIVE)) == 9;
    assert KeyStart(name, Some("/service"), Some(NAMING_RELATIVE)) == 9;
    assert name[9..] == "app/name1";
    EncodeOf("app/name1", "APP_NAME1");
  }

  /** Keys are not unique: distinct names can share one key. */
  lemma KeysCollide()
    ensures EnvironmentVariable("a-b", None, None) == EnvironmentVariable("a_b", None, None) == Some("A_B")
  {
    EncodeOf("a-b", "A_B");
    EncodeOf("a_b", "A_B");
  }
}
