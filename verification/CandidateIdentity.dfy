/**
 Candidate identity: a combination of compiler options is normalised, classified and sorted into a
 canonical candidate, whose joined items are hashed.  Equal hashes are to mean equal combinations.
 */
module CandidateIdentity {
  import opened Wrappers
  import opened Sorting

  datatype IdentityError =
    | EmptyCombo | EmptyOption | ControlCharacter | BadFlag
    | OutsideSearchSpace | MissingValue | ConflictingValues | ConflictingFlag

  /** White space as `str.strip` and the pattern `\s` see it. */
  predicate IsSpace(c: char) {
    var code := c as int;
    || 0x09 <= code <= 0x0D || 0x1C <= code <= 0x20 || code == 0x85 || code == 0xA0 || code == 0x1680
    || 0x2000 <= code <= 0x200A || code == 0x2028 || code == 0x2029 || code == 0x202F || code == 0x205F || code == 0x3000
  }

  predicate IsControl(c: char) {
    c as int < 0x20 || c as int == 0x7F
  }

  function StripLeft(s: string): string {
    if s != "" && IsSpace(s[0]) then StripLeft(s[1..]) else s
  }

  function StripRight(s: string): string {
    if s != "" && IsSpace(s[|s| - 1]) then StripRight(s[..|s| - 1]) else s
  }

  /** Every run of white space becomes one blank. */
  function Collapse(s: string): string {
    if s == "" then ""
    else if !IsSpace(s[0]) then [s[0]] + Collapse(s[1..])
    else if |s| > 1 && IsSpace(s[1]) then Collapse(s[1..])
    else " " + Collapse(s[1..])
  }

  /** `_normalize_option` */
  function Normalize(option: string): Result<string, IdentityError> {
    var stripped := StripRight(StripLeft(option));
    if stripped == "" then Err(EmptyOption)
    else if exists i :: 0 <= i < |stripped| && IsControl(stripped[i]) then Err(ControlCharacter)
    else Ok(Collapse(stripped))
  }

  /** The texts that normalisation leaves alone. */
  ghost predicate IsNormal(s: string) {
    && s != "" && !IsSpace(s[0]) && !IsSpace(s[|s| - 1])
    && (forall i :: 0 <= i < |s| ==> !IsControl(s[i]) && (IsSpace(s[i]) ==> s[i] == ' '))
    && SingleBlanks(s)
  }

  ghost predicate SingleBlanks(s: string) {
    forall i, j :: 0 <= i < |s| && j == i + 1 < |s| ==> !(IsSpace(s[i]) && IsSpace(s[j]))
  }

  lemma {:induction false} StripLeftStops(s: string)
    ensures StripLeft(s) == "" || !IsSpace(StripLeft(s)[0])
  {
    if s != "" && IsSpace(s[0]) {
      StripLeftStops(s[1..]);
    }
  }

  lemma {:induction false} StripRightStops(s: string)
    ensures StripRight(s) <= s
    ensures StripRight(s) == "" || !IsSpace(StripRight(s)[|StripRight(s)| - 1])
  {
    if s != "" && IsSpace(s[|s| - 1]) {
      StripRightStops(s[..|s| - 1]);
    }
  }

  lemma {:induction false} CollapseShape(s: string)
    ensures var t := Collapse(s);
      && (t == "" <==> s == "")
      && (forall i :: 0 <= i < |t| && IsSpace(t[i]) ==> t[i] == ' ')
      && (forall i :: 0 <= i < |t| ==> t[i] == ' ' || t[i] in s)
      && SingleBlanks(t)
      && (s != "" ==> IsSpace(t[0]) == IsSpace(s[0]) && IsSpace(t[|t| - 1]) == IsSpace(s[|s| - 1]))
  {
    if s != "" {
      var rest := s[1..];
      CollapseShape(rest);
      var t, u := Collapse(s), Collapse(rest);
      if |s| == 1 {
        assert u == "";
      } else {
        assert s[|s| - 1] == rest[|rest| - 1];
      }
    }
  }

  /** Normalisation yields a normal form. */
  lemma NormalizedIsNormal(option: string)
    ensures Normalize(option).Ok? ==> IsNormal(Normalize(option).value)
  {
    var left := StripLeft(option);
    StripLeftStops(option);
    StripRightStops(left);
    var stripped := StripRight(left);
    CollapseShape(stripped);
  }

  lemma {:induction false} CollapseIsFixed(s: string)
    requires (forall i :: 0 <= i < |s| && IsSpace(s[i]) ==> s[i] == ' ') && SingleBlanks(s)
    ensures Collapse(s) == s
  {
    if s != "" {
      var rest := s[1..];
      assert SingleBlanks(rest) by {
        forall i, j | 0 <= i < |rest| && j == i + 1 < |rest| ensures !(IsSpace(rest[i]) && IsSpace(rest[j])) {
          assert rest[i] == s[i + 1] && rest[j] == s[j + 1];
        }
      }
      CollapseIsFixed(rest);
      assert s == [s[0]] + rest;
    }
  }

  /** The normal forms are exactly the fixed points, and so normalisation is idempotent. */
  lemma NormalIffFixed(s: string)
    ensures IsNormal(s) <==> Normalize(s) == Ok(s)
  {
    if IsNormal(s) {
      CollapseIsFixed(s);
    }
    NormalizedIsNormal(s);
  }

  /** The runs of other characters that white space separates. */
  function Words(s: string): (w: seq<string>)
    ensures s != "" && !IsSpace(s[0]) ==> w != []
  {
    if s == "" then []
    else
      var rest := Words(s[1..]);
      if IsSpace(s[0]) then rest
      else if |s| > 1 && !IsSpace(s[1]) then [[s[0]] + rest[0]] + rest[1..]
      else [[s[0]]] + rest
  }

  /** The words with one blank between them. */
  function Joined(words: seq<string>): string {
    if words == [] then ""
    else if |words| == 1 then words[0]
    else words[0] + " " + Joined(words[1..])
  }

  lemma {:induction false} WordsOfStripLeft(s: string)
    ensures Words(StripLeft(s)) == Words(s)
  {
    if s != "" && IsSpace(s[0]) {
      WordsOfStripLeft(s[1..]);
    }
  }

  lemma {:induction false} SpaceEndsNothing(s: string, c: char)
    requires IsSpace(c)
    ensures Words(s + [c]) == Words(s)
  {
    if s == "" {
      assert s + [c] == [c] && [c][1..] == "";
    } else {
      SpaceEndsNothing(s[1..], c);
      assert (s + [c])[1..] == s[1..] + [c];
      if |s| == 1 {
        assert (s + [c])[1] == c;
      } else {
        assert (s + [c])[1] == s[1];
      }
    }
  }

  lemma {:induction false} WordsOfStripRight(s: string)
    ensures Words(StripRight(s)) == Words(s)
  {
    if s != "" && IsSpace(s[|s| - 1]) {
      WordsOfStripRight(s[..|s| - 1]);
      SpaceEndsNothing(s[..|s| - 1], s[|s| - 1]);
      assert s == s[..|s| - 1] + [s[|s| - 1]];
    }
  }

  lemma {:induction false} WordsOfCollapse(s: string)
    ensures Words(Collapse(s)) == Words(s)
  {
    if s != "" {
      var rest := s[1..];
      WordsOfCollapse(rest);
      CollapseShape(rest);
      if !IsSpace(s[0]) {
        assert Collapse(s)[1..] == Collapse(rest);
      } else if |s| == 1 || !IsSpace(s[1]) {
        assert Collapse(s)[1..] == Collapse(rest);
      }
    }
  }

  /** A text without stray blanks is its words, joined. */
  lemma {:induction false} JoinedWords(s: string)
    requires s != "" ==> !IsSpace(s[0]) && !IsSpace(s[|s| - 1])
    requires (forall i :: 0 <= i < |s| && IsSpace(s[i]) ==> s[i] == ' ') && SingleBlanks(s)
    ensures Joined(Words(s)) == s
    decreases |s|
  {
    if |s| > 1 {
      hide IsSpace, Words, Joined, SingleBlanks;
      TailsOfNormal(s);
      if IsSpace(s[1]) {
        JoinedWords(s[2..]);
        JoinAcrossBlank(s[0], s[2..]);
        assert s == [s[0], ' '] + s[2..];
      } else {
        JoinedWords(s[1..]);
        JoinInWord(s[0], s[1..]);
        assert s == [s[0]] + s[1..];
      }
    }
  }

  lemma JoinInWord(c: char, rest: string)
    requires rest != "" && !IsSpace(c) && !IsSpace(rest[0])
    ensures Joined(Words([c] + rest)) == [c] + Joined(Words(rest))
  {
    assert ([c] + rest)[1..] == rest;
    var w := Words(rest);
    assert ([[c] + w[0]] + w[1..])[1..] == w[1..];
  }

  lemma JoinAcrossBlank(c: char, rest: string)
    requires rest != "" && !IsSpace(c) && !IsSpace(rest[0])
    ensures Joined(Words([c, ' '] + rest)) == [c, ' '] + Joined(Words(rest))
  {
    WordsAcrossBlank(c, rest);
    assert Words(rest) != [];
    hide Words, Joined;
    JoinFirst([c], Words(rest));
    assert [c] + " " == [c, ' '];
  }

  lemma JoinFirst(word: string, words: seq<string>)
    requires words != []
    ensures Joined([word] + words) == word + " " + Joined(words)
  {
    assert ([word] + words)[1..] == words;
  }

  lemma WordsAcrossBlank(c: char, rest: string)
    requires rest != "" && !IsSpace(c)
    ensures Words([c, ' '] + rest) == [[c]] + Words(rest)
  {
    var s := [c, ' '] + rest;
    assert IsSpace(' ');
    hide IsSpace;
    assert s[1..] == [' '] + rest && s[1..][1..] == rest;
  }

  lemma TailsOfNormal(s: string)
    requires |s| > 1 && SingleBlanks(s) && !IsSpace(s[|s| - 1])
    requires forall i :: 0 <= i < |s| && IsSpace(s[i]) ==> s[i] == ' '
    ensures SingleBlanks(s[1..]) && SingleBlanks(s[2..])
    ensures IsSpace(s[1]) ==> |s| > 2 && !IsSpace(s[2]) && s[1] == ' '
  {
    hide IsSpace;
    var rest := s[1..];
    assert forall i :: 0 <= i < |rest| ==> rest[i] == s[i + 1];
    assert s[2..] == rest[1..] && forall i :: 0 <= i < |rest[1..]| ==> rest[1..][i] == s[i + 2];
  }

  /** Normalisation keeps the words in their order and puts one blank between them; without words it fails. */
  lemma NormalizeJoinsWords(option: string)
    ensures Normalize(option) == Err(EmptyOption) <==> Words(option) == []
    ensures Normalize(option).Ok? ==> Normalize(option).value == Joined(Words(option)) && Words(Normalize(option).value) == Words(option)
  {
    var left := StripLeft(option);
    var stripped := StripRight(left);
    StripLeftStops(option);
    StripRightStops(left);
    WordsOfStripLeft(option);
    WordsOfStripRight(left);
    WordsOfCollapse(stripped);
    CollapseShape(stripped);
    JoinedWords(Collapse(stripped));
  }

  /** Two accepted options have the same normal form exactly when they have the same words. */
  lemma NormalizeAlikeIff(a: string, b: string)
    requires Normalize(a).Ok? && Normalize(b).Ok?
    ensures Normalize(a) == Normalize(b) <==> Words(a) == Words(b)
  {
    hide Normalize, Words, Joined;
    NormalizeJoinsWords(a);
    NormalizeJoinsWords(b);
  }

  /** A control character with something else than white space at or before it, and at or behind it. */
  ghost predicate ControlInside(s: string) {
    exists i, j, k :: 0 <= i <= j <= k < |s| && !IsSpace(s[i]) && IsControl(s[j]) && !IsSpace(s[k])
  }

  lemma {:induction false} ControlInsideLeft(s: string)
    ensures ControlInside(StripLeft(s)) <==> ControlInside(s)
  {
    hide IsSpace, IsControl;
    if s != "" && IsSpace(s[0]) {
      var rest := s[1..];
      ControlInsideLeft(rest);
      if i, j, k :| 0 <= i <= j <= k < |s| && !IsSpace(s[i]) && IsControl(s[j]) && !IsSpace(s[k]) {
        assert rest[i - 1] == s[i] && rest[j - 1] == s[j] && rest[k - 1] == s[k];
      }
      if i, j, k :| 0 <= i <= j <= k < |rest| && !IsSpace(rest[i]) && IsControl(rest[j]) && !IsSpace(rest[k]) {
        assert s[i + 1] == rest[i] && s[j + 1] == rest[j] && s[k + 1] == rest[k];
      }
    }
  }

  lemma {:induction false} ControlInsideRight(s: string)
    ensures ControlInside(StripRight(s)) <==> ControlInside(s)
  {
    hide IsSpace, IsControl, ControlInside;
    if s != "" && IsSpace(s[|s| - 1]) {
      ControlInsideRight(s[..|s| - 1]);
      ControlInsideFront(s);
    }
  }

  lemma ControlInsideFront(s: string)
    requires s != "" && IsSpace(s[|s| - 1])
    ensures ControlInside(s[..|s| - 1]) <==> ControlInside(s)
  {
    hide IsSpace, IsControl;
    var front := s[..|s| - 1];
    if i, j, k :| 0 <= i <= j <= k < |s| && !IsSpace(s[i]) && IsControl(s[j]) && !IsSpace(s[k]) {
      assert front[i] == s[i] && front[j] == s[j] && front[k] == s[k];
    }
    if i, j, k :| 0 <= i <= j <= k < |front| && !IsSpace(front[i]) && IsControl(front[j]) && !IsSpace(front[k]) {
      assert s[i] == front[i] && s[j] == front[j] && s[k] == front[k];
    }
  }

  /** An option with words is refused exactly for a control character inside it, tabs and line ends included. */
  lemma NormalizeFailsIff(option: string)
    ensures Normalize(option) == Err(ControlCharacter) <==> ControlInside(option)
  {
    var left := StripLeft(option);
    var stripped := StripRight(left);
    StripLeftStops(option);
    StripRightStops(left);
    ControlInsideLeft(option);
    ControlInsideRight(left);
    if stripped != "" {
      assert !IsSpace(stripped[0]) && !IsSpace(stripped[|stripped| - 1]);
    }
  }

  /** What is known about options, defaults and customisation taken together. */
  datatype Taxonomy = Taxonomy(
    flags: set<string>,
    prefixes: map<string, string>,
    literals: map<string, (string, string)>,
    unsupported: seq<string>)

  const DEFAULT_PREFIXES: map<string, string> :=
    map["-march=" := "march", "-mtune=" := "mtune", "-mcpu=" := "mcpu", "-flto=" := "flto"]

  const DEFAULT_LITERALS: map<string, (string, string)> :=
    map[
      "-O0" := ("opt_level", "O0"), "-O1" := ("opt_level", "O1"), "-O2" := ("opt_level", "O2"),
      "-O3" := ("opt_level", "O3"), "-Os" := ("opt_level", "Os"), "-Oz" := ("opt_level", "Oz"),
      "-Og" := ("opt_level", "Og"), "-Ofast" := ("opt_level", "Ofast")]

  const DEFAULT_UNSUPPORTED: seq<string> := ["-D", "-I", "-L", "-l", "-Wl,", "--param"]

  const DEFAULT_TAXONOMY: Taxonomy :=
    Taxonomy({"-flto", "-funroll-loops"}, DEFAULT_PREFIXES, DEFAULT_LITERALS, DEFAULT_UNSUPPORTED)

  function NormalFlags(flags: set<string>): set<string> {
    set f | f in flags && Normalize(f).Ok? :: Normalize(f).value
  }

  /** A customised specification extends the default tables and replaces the rest. */
  function Customised(
      flags: set<string>, prefixes: map<string, string>, literals: map<string, (string, string)>, unsupported: seq<string>)
    : Result<Taxonomy, IdentityError>
  {
    if exists f :: f in flags && Normalize(f).Err? then Err(BadFlag)
    else Ok(Taxonomy(NormalFlags(flags), DEFAULT_PREFIXES + prefixes, DEFAULT_LITERALS + literals, unsupported))
  }

  /** `_reject_unsupported_accumulating`; the entry `--param` itself is matched as a word only. */
  predicate IsUnsupported(tax: Taxonomy, option: string) {
    || option == "--param" || "--param " <= option
    || exists i :: 0 <= i < |tax.unsupported| && tax.unsupported[i] != "--param" && tax.unsupported[i] <= option
  }

  /** The longest known prefix of at most `n` characters. */
  function LongestPrefix(prefixes: map<string, string>, option: string, n: nat): (r: Option<string>)
    requires n <= |option|
    ensures r.Some? ==> r.value in prefixes && r.value <= option && |r.value| <= n
  {
    if option[..n] in prefixes then Some(option[..n])
    else if n == 0 then None
    else LongestPrefix(prefixes, option, n - 1)
  }

  datatype Kind = Flag | Value(key: string, value: string)

  /** What one normalised option is. */
  function Classify(tax: Taxonomy, option: string): Result<Kind, IdentityError> {
    if IsUnsupported(tax, option) then Err(OutsideSearchSpace)
    else if option in tax.literals then Ok(Value(tax.literals[option].0, tax.literals[option].1))
    else
      match LongestPrefix(tax.prefixes, option, |option|)
      case Some(prefix) =>
        var value := option[|prefix|..];
        if value == "" then Err(MissingValue) else Ok(Value(tax.prefixes[prefix], value))
      case None => if option in tax.flags then Ok(Flag) else Err(OutsideSearchSpace)
  }

  /** A customised specification keeps the defaults that it does not redefine, and normalises its flags. */
  lemma CustomisedIff(
      flags: set<string>, prefixes: map<string, string>, literals: map<string, (string, string)>, unsupported: seq<string>)
    ensures
      var tax := Customised(flags, prefixes, literals, unsupported);
      && (tax.Err? <==> exists f :: f in flags && (Words(f) == [] || ControlInside(f)))
      && (tax.Ok? ==>
            && (forall g :: g in tax.value.flags <==> exists f :: f in flags && g == Joined(Words(f)))
            && (forall p :: p in tax.value.prefixes <==> p in DEFAULT_PREFIXES || p in prefixes)
            && (forall p :: p in prefixes ==> tax.value.prefixes[p] == prefixes[p])
            && (forall l :: l in tax.value.literals <==> l in DEFAULT_LITERALS || l in literals)
            && (forall l :: l in literals ==> tax.value.literals[l] == literals[l])
            && tax.value.unsupported == unsupported)
  {
    forall f ensures Normalize(f).Err? <==> Words(f) == [] || ControlInside(f)
      ensures Normalize(f).Ok? ==> Normalize(f).value == Joined(Words(f))
    {
      NormalizeJoinsWords(f);
      NormalizeFailsIff(f);
      NormalizeErrors(f);
    }
    hide Normalize, ControlInside, Words, Joined;
  }

  lemma NormalizeErrors(option: string)
    ensures Normalize(option).Err? ==> Normalize(option).error == EmptyOption || Normalize(option).error == ControlCharacter
  {}

  predicate Starts(option: string, prefix: string) {
    |prefix| <= |option| && option[..|prefix|] == prefix
  }

  /** Accumulating options: `--param` as a word, or any other listed prefix. */
  ghost predicate Accumulates(tax: Taxonomy, option: string) {
    || option == "--param" || Starts(option, "--param ")
    || exists p :: p in tax.unsupported && p != "--param" && Starts(option, p)
  }

  /** `prefix` is a known prefix of the option, and no longer one is. */
  ghost predicate IsLongest(tax: Taxonomy, option: string, prefix: string) {
    && prefix in tax.prefixes && Starts(option, prefix)
    && forall p :: p in tax.prefixes && Starts(option, p) ==> |p| <= |prefix|
  }

  lemma AccumulatesIff(tax: Taxonomy, option: string)
    ensures IsUnsupported(tax, option) <==> Accumulates(tax, option)
  {
    forall p ensures p <= option <==> Starts(option, p) {
    }
    if i :| 0 <= i < |tax.unsupported| && tax.unsupported[i] != "--param" && tax.unsupported[i] <= option {
      assert tax.unsupported[i] in tax.unsupported && Starts(option, tax.unsupported[i]);
    }
    if p :| p in tax.unsupported && p != "--param" && Starts(option, p) {
      var i :| 0 <= i < |tax.unsupported| && tax.unsupported[i] == p;
    }
  }

  lemma {:induction false} LongestIff(tax: Taxonomy, option: string, n: nat)
    requires n <= |option|
    requires forall p :: p in tax.prefixes && Starts(option, p) ==> |p| <= n
    ensures match LongestPrefix(tax.prefixes, option, n)
      case Some(prefix) => IsLongest(tax, option, prefix)
      case None => forall p :: p in tax.prefixes ==> !Starts(option, p)
  {
    if option[..n] in tax.prefixes {
      assert Starts(option, option[..n]);
    } else {
      forall p | p in tax.prefixes && Starts(option, p) ensures |p| < n {
        assert option[..|p|] == p;
      }
      if n > 0 {
        LongestIff(tax, option, n - 1);
      }
    }
  }

  /**
   What an option is, by the tables alone: refused when accumulating, a literal before a prefix, the
   longest prefix before a shorter one, and a flag last.
   */
  lemma ClassifyIff(tax: Taxonomy, option: string)
    ensures
      var kind := Classify(tax, option);
      if Accumulates(tax, option) then kind == Err(OutsideSearchSpace)
      else if option in tax.literals then kind == Ok(Value(tax.literals[option].0, tax.literals[option].1))
      else if option in tax.prefixes then kind == Err(MissingValue)
      else if exists p :: p in tax.prefixes && Starts(option, p) then
        exists p :: IsLongest(tax, option, p) && kind == Ok(Value(tax.prefixes[p], option[|p|..]))
      else kind == if option in tax.flags then Ok(Flag) else Err(OutsideSearchSpace)
  {
    AccumulatesIff(tax, option);
    LongestIff(tax, option, |option|);
    assert option[..|option|] == option;
    match LongestPrefix(tax.prefixes, option, |option|)
    case Some(prefix) =>
      assert option[|prefix|..] == "" <==> |prefix| == |option|;
      assert IsLongest(tax, option, prefix);
    case None =>
  }

  datatype Entry = Entry(key: string, value: string, raw: string)

  /** The set of flags and the dictionary of values, as listings without repetition. */
  datatype Found = Found(flags: seq<string>, values: seq<Entry>)

  function IndexOfKey(values: seq<Entry>, key: string): (i: nat)
    ensures i <= |values| && (i < |values| ==> values[i].key == key)
    ensures forall j :: 0 <= j < i ==> values[j].key != key
  {
    if values == [] || values[0].key == key then 0 else 1 + IndexOfKey(values[1..], key)
  }

  /** `_add_value_flag`: a repeated value keeps the latest spelling. */
  function AddValue(values: seq<Entry>, e: Entry): Result<seq<Entry>, IdentityError> {
    var i := IndexOfKey(values, e.key);
    if i == |values| then Ok(values + [e])
    else if values[i].value != e.value then Err(ConflictingValues)
    else Ok(values[i := e])
  }

  function AddOption(tax: Taxonomy, found: Found, option: string): Result<Found, IdentityError> {
    match Classify(tax, option)
    case Err(error) => Err(error)
    case Ok(Flag) => Ok(if option in found.flags then found else found.(flags := found.flags + [option]))
    case Ok(Value(key, value)) =>
      var values :- AddValue(found.values, Entry(key, value, option));
      Ok(found.(values := values))
  }

  function FoundIn(tax: Taxonomy, options: seq<string>): Result<Found, IdentityError> {
    if options == [] then Ok(Found([], []))
    else
      var found :- FoundIn(tax, options[..|options| - 1]);
      AddOption(tax, found, options[|options| - 1])
  }

  datatype Candidate = Candidate(flags: seq<string>, values: seq<Entry>)

  function Codes(s: string): seq<int> {
    seq(|s|, i requires 0 <= i < |s| => s[i] as int)
  }

  lemma CodesAreInjective(a: string, b: string)
    requires Codes(a) == Codes(b)
    ensures a == b
  {
    assert |a| == |Codes(a)| == |Codes(b)| == |b|;
    forall i | 0 <= i < |a| ensures a[i] == b[i] {
      assert Codes(a)[i] == Codes(b)[i];
    }
  }

  function TextLeq(): (string, string) -> bool {
    (a: string, b: string) => LexLeq(Codes(a), Codes(b))
  }

  function KeyLeq(): (Entry, Entry) -> bool {
    (a: Entry, b: Entry) => LexLeq(Codes(a.key), Codes(b.key))
  }

  function HasKey(values: seq<Entry>, key: string): bool {
    IndexOfKey(values, key) < |values|
  }

  function Finish(found: Found): Result<Candidate, IdentityError> {
    if "-flto" in found.flags && HasKey(found.values, "flto") then Err(ConflictingFlag)
    else Ok(Candidate(Sort(found.flags, TextLeq()), Sort(found.values, KeyLeq())))
  }

  function NormalizeAll(combo: seq<string>): Result<seq<string>, IdentityError> {
    if combo == [] then Ok([])
    else
      var front :- NormalizeAll(combo[..|combo| - 1]);
      var last :- Normalize(combo[|combo| - 1]);
      Ok(front + [last])
  }

  /** `canonicalize_candidate` as a formula. */
  function Canonical(tax: Taxonomy, combo: seq<string>): Result<Candidate, IdentityError> {
    if combo == [] then Err(EmptyCombo)
    else
      var options :- NormalizeAll(combo);
      var found :- FoundIn(tax, options);
      Finish(found)
  }

  /** `hash_items` */
  function HashItems(c: Candidate): seq<string> {
    Sort(c.flags + Raws(c.values), TextLeq())
  }

  function Raws(values: seq<Entry>): seq<string> {
    seq(|values|, i requires 0 <= i < |values| => values[i].raw)
  }

  const NUL: char := '\0'

  /** What is hashed; the hash itself is taken to be injective. */
  function Payload(items: seq<string>): string {
    if items == [] then "" else if |items| == 1 then items[0] else items[0] + [NUL] + Payload(items[1..])
  }

  /** `canonicalize_candidate` */
  method CanonicalizeCandidate(tax: Taxonomy, combo: seq<string>) returns (r: Result<Candidate, IdentityError>)
    ensures r == Canonical(tax, combo)
  {
    if combo == [] {
      return Err(EmptyCombo);
    }
    var options := NormalizeAll(combo);
    if options.Err? {
      return Err(options.error);
    }
    var flags: seq<string>, values: seq<Entry> := [], [];
    for i := 0 to |options.value|
      invariant FoundIn(tax, options.value[..i]) == Ok(Found(flags, values))
    {
      var option := options.value[i];
      assert options.value[..i + 1][..i] == options.value[..i];
      FoundFailsOnPrefix(tax, options.value, i + 1);
      match Classify(tax, option)
      case Err(error) => return Err(error);
      case Ok(Flag) =>
        if option !in flags {
          flags := flags + [option];
        }
      case Ok(Value(key, value)) =>
        var added := AddValue(values, Entry(key, value, option));
        if added.Err? {
          return Err(added.error);
        }
        values := added.value;
    }
    assert options.value[..|options.value|] == options.value;
    return Finish(Found(flags, values));
  }

  lemma {:induction false} FoundFailsOnPrefix(tax: Taxonomy, options: seq<string>, n: nat)
    requires n <= |options|
    ensures FoundIn(tax, options[..n]).Err? ==> FoundIn(tax, options) == FoundIn(tax, options[..n])
  {
    if n < |options| {
      FoundFailsOnPrefix(tax, options[..|options| - 1], n);
      assert options[..|options| - 1][..n] == options[..n];
    } else {
      assert options[..n] == options;
    }
  }
}
