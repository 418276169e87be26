/**
 * The typed getters of configuration/configuration.go over the string-keyed
 * map that `newConfig` unmarshals from a JSON file, and the empty-key guard
 * of `FindConfiguration`.  Reading and unmarshalling the file is a parameter
 * of `FindConfiguration`.
 */
module Configuration {
  import opened Wrappers

  /** A value as `encoding/json` unmarshals it into an `interface{}`. */
  datatype ConfigValue =
    | JString(s: string)
    | JNumber(text: string)  // a float64, by its `%v` text
    | JBool(b: bool)
    | JNull
    | JArray(items: seq<ConfigValue>)
    | JObject(entries: map<string, ConfigValue>)

  /** The unmarshalled configuration file (`config.data`). */
  datatype Config = Config(data: map<string, ConfigValue>)

  const MinInt64: int := -0x8000_0000_0000_0000
  const MaxInt64: int := 0x7FFF_FFFF_FFFF_FFFF

  /**
   * `fmt.Sprintf("%s", value)`: a string is itself; any other kind is printed
   * as a `%!s(...)` complaint, a bracketed list or a `map[...]`.
   */
  function Render(v: ConfigValue): (text: string)
    ensures v.JString? ==> text == v.s
    ensures !v.JString? ==> |text| > 0 && text[0] in {'%', '[', 'm'}
  {
    match v
    case JString(s) => s
    case JNumber(t) => "%!s(float64=" + t + ")"
    case JBool(b) => if b then "%!s(bool=true)" else "%!s(bool=false)"
    case JNull => "%!s(<nil>)"
    case JArray(_) => "[]"
    case JObject(_) => "map[]"
  }

  // ---------------------------------------------------------------------------
  // strconv.ParseInt(s, 10, 64) and its inverse strconv.FormatInt(n, 10)

  predicate IsDigit(c: char) { '0' <= c <= '9' }

  predicate AllDigits(s: string)
  {
    forall i :: 0 <= i < |s| ==> IsDigit(s[i])
  }

  /** The value of a run of decimal digits, most significant first. */
  function DigitsValue(s: string): nat
    requires AllDigits(s)
  {
    if s == [] then 0
    else DigitsValue(s[..|s| - 1]) * 10 + (s[|s| - 1] as int - '0' as int)
  }

  /** The value a base-10 literal denotes: optional sign, then at least one digit. */
  function LiteralValue(s: string): Option<int>
  {
    if |s| > 0 && (s[0] == '+' || s[0] == '-') then
      var digits := s[1..];
      if digits != [] && AllDigits(digits) then
        var magnitude: int := DigitsValue(digits);
        Some(if s[0] == '-' then -magnitude else magnitude)
      else None
    else if s != [] && AllDigits(s) then Some(DigitsValue(s))
    else None
  }

  /** `strconv.ParseInt(s, 10, 64)`, the error case as None (syntax error or out of range). */
  function ParseInt10(s: string): (r: Option<int>)
    ensures r.Some? ==> MinInt64 <= r.value <= MaxInt64
    ensures r.Some? ==> LiteralValue(s) == r
    ensures LiteralValue(s).Some? && MinInt64 <= LiteralValue(s).value <= MaxInt64 ==> r.Some?
    ensures r.Some? ==> |s| > 0 && (IsDigit(s[0]) || s[0] == '+' || s[0] == '-')
  {
    match LiteralValue(s)
    case Some(n) => if MinInt64 <= n <= MaxInt64 then Some(n) else None
    case None => None
  }

  function DigitChar(d: nat): char
    requires d < 10
  {
    ('0' as int + d) as char
  }

  /** The decimal digits of a natural number, without leading zeros. */
  function NatDigits(n: nat): (s: string)
    ensures |s| > 0 && AllDigits(s)
    decreases n
  {
    if n < 10 then [DigitChar(n)] else NatDigits(n / 10) + [DigitChar(n % 10)]
  }

  /** `strconv.FormatInt(n, 10)`. */
  function FormatInt(n: int): string
  {
    if n < 0 then "-" + NatDigits(-n) else NatDigits(n)
  }

  lemma {:induction false} NatDigitsValue(n: nat)
    ensures DigitsValue(NatDigits(n)) == n
    decreases n
  {
    if n >= 10 {
      var s := NatDigits(n);
      NatDigitsValue(n / 10);
      assert s[..|s| - 1] == NatDigits(n / 10);
    }
  }

  /** Parsing undoes formatting for every int64. */
  lemma ParseFormatRoundTrip(n: int)
    requires MinInt64 <= n <= MaxInt64
    ensures ParseInt10(FormatInt(n)) == Some(n)
  {
    if n < 0 {
      NatDigitsValue(-n);
      assert FormatInt(n)[1..] == NatDigits(-n);
    } else {
      NatDigitsValue(n);
    }
  }

  // ---------------------------------------------------------------------------
  // The getters

  /** `GetInt`: the value's `%s` text parsed as a base-10 int64, or 0. */
  function GetInt(cfg: Config, key: string): (n: int)
    ensures MinInt64 <= n <= MaxInt64
    ensures key !in cfg.data ==> n == 0
    ensures key in cfg.data && !cfg.data[key].JString? ==> n == 0
    ensures key in cfg.data && ParseInt10(Render(cfg.data[key])).None? ==> n == 0
    ensures n != 0 ==> key in cfg.data && LiteralValue(Render(cfg.data[key])) == Some(n)
    ensures key in cfg.data && ParseInt10(Render(cfg.data[key])).Some? ==> n == ParseInt10(Render(cfg.data[key])).value
    ensures (key in cfg.data && cfg.data[key].JString? && LiteralValue(cfg.data[key].s).Some? &&
             MinInt64 <= LiteralValue(cfg.data[key].s).value <= MaxInt64)
            ==> n == LiteralValue(cfg.data[key].s).value
  {
    if key in cfg.data then
      match ParseInt10(Render(cfg.data[key]))
      case Some(num) => num
      case None => 0
    else 0
  }

  /** A key holding the decimal text of an int64 reads back as that number. */
  lemma GetIntFormatted(cfg: Config, key: string, m: int)
    requires MinInt64 <= m <= MaxInt64
    requires key in cfg.data && cfg.data[key] == JString(FormatInt(m))
    ensures GetInt(cfg, key) == m
  {
    ParseFormatRoundTrip(m);
  }

  /** `GetString`: the value if it is a string, else "". */
  function GetString(cfg: Config, key: string): (s: string)
    ensures key in cfg.data && cfg.data[key].JString? ==> s == cfg.data[key].s
    ensures !(key in cfg.data && cfg.data[key].JString?) ==> s == ""
  {
    if key in cfg.data then
      match cfg.data[key]
      case JString(str) => str
      case _ => ""
    else ""
  }

  const TrueWords: set<string> := {"1", "t", "T", "TRUE", "true", "True"}
  const FalseWords: set<string> := {"0", "f", "F", "FALSE", "false", "False"}

  /** `strconv.ParseBool`. */
  function ParseBool(s: string): (r: Option<bool>)
    ensures r == Some(true) <==> s in TrueWords
    ensures r == Some(false) <==> s in FalseWords
    ensures r.None? <==> s !in TrueWords + FalseWords
  {
    if s in TrueWords then Some(true)
    else if s in FalseWords then Some(false)
    else None
  }

  /** `strconv.FormatBool`. */
  function FormatBool(b: bool): string { if b then "true" else "false" }

  lemma ParseFormatBool(b: bool)
    ensures ParseBool(FormatBool(b)) == Some(b)
  {
  }

  /** `GetBool`: true only for a string `ParseBool` reads as true. */
  function GetBool(cfg: Config, key: string): (b: bool)
    ensures b <==> key in cfg.data && cfg.data[key].JString? && cfg.data[key].s in TrueWords
  {
    if key in cfg.data then
      match cfg.data[key]
      case JString(str) =>
        (match ParseBool(str)
         case Some(v) => v
         case None => false)
      case _ => false
    else false
  }

  // ---------------------------------------------------------------------------
  // strings.Split on a one-character separator, and its inverse strings.Join

  function Count(s: string, c: char): nat
  {
    if s == [] then 0 else Count(s[..|s| - 1], c) + (if s[|s| - 1] == c then 1 else 0)
  }

  /** `strings.Split(s, sep)`: the pieces between separators, the empty string giving one empty piece. */
  function Split(s: string, sep: char): (pieces: seq<string>)
    ensures |pieces| >= 1
  {
    if s == [] then [""]
    else
      var parts, c := Split(s[..|s| - 1], sep), s[|s| - 1];
      if c == sep then parts + [""]
      else parts[..|parts| - 1] + [parts[|parts| - 1] + [c]]
  }

  /** `strings.Join(pieces, sep)`. */
  function Join(pieces: seq<string>, sep: char): string
  {
    if pieces == [] then ""
    else if |pieces| == 1 then pieces[0]
    else Join(pieces[..|pieces| - 1], sep) + [sep] + pieces[|pieces| - 1]
  }

  /** Splitting yields one more piece than there are separators. */
  lemma {:induction false} SplitCount(s: string, sep: char)
    ensures |Split(s, sep)| == Count(s, sep) + 1
  {
    if s != [] {
      SplitCount(s[..|s| - 1], sep);
    }
  }

  /** No piece contains the separator. */
  lemma {:induction false} SplitPieces(s: string, sep: char)
    ensures forall i :: 0 <= i < |Split(s, sep)| ==> sep !in Split(s, sep)[i]
  {
    if s != [] {
      SplitPieces(s[..|s| - 1], sep);
    }
  }

  /** Joining the pieces with the separator gives back the original string. */
  lemma {:induction false} JoinSplit(s: string, sep: char)
    ensures Join(Split(s, sep), sep) == s
  {
    if s != [] {
      var init, c := s[..|s| - 1], s[|s| - 1];
      JoinSplit(init, sep);
      JoinSplitLast(init, c, sep);
      assert init + [c] == s;
    }
  }

  /** Splitting `init + [c]` and joining again gives the join of `init`'s pieces followed by `c`. */
  lemma JoinSplitLast(init: string, c: char, sep: char)
    ensures Join(Split(init + [c], sep), sep) == Join(Split(init, sep), sep) + [c]
  {
    var parts := Split(init, sep);
    var s := init + [c];
    assert s[..|s| - 1] == init && s[|s| - 1] == c;
    if c == sep {
      assert Split(s, sep) == parts + [""];
      JoinNewPiece(parts, sep);
    } else {
      assert Split(s, sep) == parts[..|parts| - 1] + [parts[|parts| - 1] + [c]];
      JoinExtendLast(parts, sep, c);
    }
  }

  lemma JoinNewPiece(parts: seq<string>, sep: char)
    requires |parts| >= 1
    ensures Join(parts + [""], sep) == Join(parts, sep) + [sep]
  {
    var pieces := parts + [""];
    assert pieces[..|pieces| - 1] == parts;
  }

  lemma JoinExtendLast(parts: seq<string>, sep: char, c: char)
    requires |parts| >= 1
    ensures Join(parts[..|parts| - 1] + [parts[|parts| - 1] + [c]], sep) == Join(parts, sep) + [c]
  {
    var k := |parts|;
    var pieces := parts[..k - 1] + [parts[k - 1] + [c]];
    if k > 1 {
      assert pieces[..k - 1] == parts[..k - 1];
      assert Join(parts, sep) == Join(parts[..k - 1], sep) + [sep] + parts[k - 1];
    }
  }

  /** `GetArray`: the comma-separated pieces of a non-empty string value; nil (None) otherwise. */
  function GetArray(cfg: Config, key: string): (r: Option<seq<string>>)
    ensures r.None? <==> !(key in cfg.data && cfg.data[key].JString? && cfg.data[key].s != "")
    ensures r.Some? ==> |r.value| == Count(cfg.data[key].s, ',') + 1
    ensures r.Some? ==> Join(r.value, ',') == cfg.data[key].s
    ensures r.Some? ==> forall i :: 0 <= i < |r.value| ==> ',' !in r.value[i]
  {
    if key in cfg.data && cfg.data[key].JString? && cfg.data[key].s != "" then
      var str := cfg.data[key].s;
      SplitCount(str, ',');
      JoinSplit(str, ',');
      SplitPieces(str, ',');
      Some(Split(str, ','))
    else None
  }

  // ---------------------------------------------------------------------------
  // GetMap

  /** The index of the first ':' in `e`, if any. */
  function FirstColon(e: string): (r: Option<nat>)
    ensures r.Some? ==> r.value < |e| && e[r.value] == ':' && ':' !in e[..r.value]
    ensures r.None? ==> ':' !in e
  {
    if e == [] then None
    else if e[0] == ':' then Some(0)
    else match FirstColon(e[1..])
      case Some(i) => assert e[..i + 1] == [e[0]] + e[1..][..i]; Some(i + 1)
      case None => None
  }

  /** `strings.SplitN(e, ":", 2)` when it yields two parts: the text before the first ':' and after it. */
  function KeyValue(e: string): Option<(string, string)>
  {
    match FirstColon(e)
    case Some(i) => Some((e[..i], e[i + 1..]))
    case None => None
  }

  /** The two parts are the element cut at its first ':', so the key has no ':' and the value may. */
  lemma KeyValueCut(e: string)
    ensures KeyValue(e).None? <==> ':' !in e
    ensures KeyValue(e).Some? ==> e == KeyValue(e).value.0 + [':'] + KeyValue(e).value.1
    ensures KeyValue(e).Some? ==> ':' !in KeyValue(e).value.0
  {
    if FirstColon(e).Some? {
      var i := FirstColon(e).value;
      assert e == e[..i] + [':'] + e[i + 1..];
    }
  }

  predicate HasKey(e: string, k: string)
  {
    KeyValue(e).Some? && KeyValue(e).value.0 == k
  }

  /** The map built from a list of elements: elements without ':' skipped, later keys overwriting earlier ones. */
  function MapEntries(elements: seq<string>): map<string, string>
  {
    if elements == [] then map[]
    else
      var m := MapEntries(elements[..|elements| - 1]);
      match KeyValue(elements[|elements| - 1])
      case Some(kv) => m[kv.0 := kv.1]
      case None => m
  }

  /**
   * `GetMap`: the map of the `key:value` elements of a string value, None (nil)
   * when the key is absent or not a string.
   */
  method GetMap(cfg: Config, key: string) returns (r: Option<map<string, string>>)
    ensures r.None? <==> !(key in cfg.data && cfg.data[key].JString?)
    ensures r.Some? ==> r.value == MapEntries(Split(cfg.data[key].s, ','))
  {
    if key !in cfg.data || !cfg.data[key].JString? {
      return None;
    }
    var elements := Split(cfg.data[key].s, ',');
    var maps: map<string, string> := map[];
    var i := 0;
    while i < |elements|
      invariant 0 <= i <= |elements|
      invariant maps == MapEntries(elements[..i])
    {
      var kv := KeyValue(elements[i]);
      if kv.Some? {
        maps := maps[kv.value.0 := kv.value.1];
      }
      assert elements[..i + 1][..i] == elements[..i];
      i := i + 1;
    }
    assert elements[..|elements|] == elements;
    return Some(maps);
  }

  /** A key is in the map iff some element carries it before its first ':'. */
  lemma {:induction false} MapEntriesKeys(elements: seq<string>, k: string)
    ensures k in MapEntries(elements) <==> exists j :: 0 <= j < |elements| && HasKey(elements[j], k)
  {
    if elements != [] {
      var init := elements[..|elements| - 1];
      MapEntriesKeys(init, k);
      if exists j :: 0 <= j < |init| && HasKey(init[j], k) {
        var j :| 0 <= j < |init| && HasKey(init[j], k);
        assert elements[j] == init[j];
      }
      if exists j :: 0 <= j < |elements| && HasKey(elements[j], k) {
        var j :| 0 <= j < |elements| && HasKey(elements[j], k);
        if j < |init| { assert init[j] == elements[j]; }
      }
    }
  }

  /** The value of a key is what follows the first ':' in the last element carrying that key. */
  lemma {:induction false} MapEntriesLastWins(elements: seq<string>, k: string, j: int)
    requires 0 <= j < |elements| && HasKey(elements[j], k)
    requires forall j' :: j < j' < |elements| ==> !HasKey(elements[j'], k)
    ensures k in MapEntries(elements) && MapEntries(elements)[k] == KeyValue(elements[j]).value.1
  {
    var n := |elements| - 1;
    if j < n {
      var init := elements[..n];
      assert init[j] == elements[j];
      MapEntriesLastWins(init, k, j);
      assert !HasKey(elements[n], k);
    }
  }

  // ---------------------------------------------------------------------------
  // FindConfiguration

  const ConfigurationShouldNotBeEmpty: string := "key to find configuration should not be empty"

  /** The file `FindConfiguration` reads for a key. */
  function ConfigPath(key: string): string { "./" + key + ".json" }

  /**
   * `FindConfiguration(key)`; `readConfig` stands for `newConfig`, reading and
   * unmarshalling the file at a path.
   */
  function FindConfiguration(key: string, readConfig: string -> Result<Config, string>): (r: Result<Config, string>)
    ensures key == "" ==> r == Failure(ConfigurationShouldNotBeEmpty)
    ensures key != "" ==> r == readConfig(ConfigPath(key))
  {
    if key == "" then Failure(ConfigurationShouldNotBeEmpty) else readConfig(ConfigPath(key))
  }

  /** The empty key is refused whatever the file system holds: no file is consulted. */
  lemma EmptyKeyReadsNothing(read1: string -> Result<Config, string>, read2: string -> Result<Config, string>)
    ensures FindConfiguration("", read1) == FindConfiguration("", read2)
  {
  }
}
