/**
 What a canonical candidate identifies: combinations up to order, repetition and white space, exactly
 when no two options of the taxonomy spell the same value.
 */
module CandidateEquality {
  import opened Wrappers
  import opened FiniteSets
  import opened Sorting
  import opened CandidateIdentity

  lemma {:induction false} NormalizeAllIff(combo: seq<string>)
    ensures NormalizeAll(combo).Ok? <==> forall i :: 0 <= i < |combo| ==> Normalize(combo[i]).Ok?
    ensures NormalizeAll(combo).Ok? ==>
      var options := NormalizeAll(combo).value;
      |options| == |combo| && forall i :: 0 <= i < |combo| ==> Normalize(combo[i]) == Ok(options[i])
  {
    hide Normalize;
    if combo != [] {
      var front := combo[..|combo| - 1];
      NormalizeAllIff(front);
      assert forall i :: 0 <= i < |front| ==> front[i] == combo[i];
    }
  }

  /** The results of normalising the options, without order and repetition. */
  function NormalForms(combo: seq<string>): set<Result<string, IdentityError>> {
    set option | option in combo :: Normalize(option)
  }

  lemma NormalFormsAreOptions(combo: seq<string>)
    requires NormalizeAll(combo).Ok?
    ensures forall o :: o in NormalizeAll(combo).value <==> Ok(o) in NormalForms(combo)
    ensures forall o :: o in NormalizeAll(combo).value ==> IsNormal(o)
  {
    NormalizeAllIff(combo);
    var options := NormalizeAll(combo).value;
    hide Normalize, IsNormal, NormalizeAll;
    forall o | o in options ensures Ok(o) in NormalForms(combo) && IsNormal(o) {
      var i :| 0 <= i < |options| && options[i] == o;
      assert combo[i] in combo && Normalize(combo[i]) == Ok(o);
      NormalizedIsNormal(combo[i]);
    }
    forall o | Ok(o) in NormalForms(combo) ensures o in options {
      var raw :| raw in combo && Normalize(raw) == Ok(o);
      var i :| 0 <= i < |combo| && combo[i] == raw;
      assert options[i] == o;
    }
  }

  lemma SameFormsNormalizeAlike(a: seq<string>, b: seq<string>)
    requires NormalForms(a) == NormalForms(b)
    ensures NormalizeAll(a).Ok? <==> NormalizeAll(b).Ok?
    ensures a == [] <==> b == []
    ensures NormalizeAll(a).Ok? ==> forall o :: o in NormalizeAll(a).value <==> o in NormalizeAll(b).value
  {
    NormalizeAllIff(a);
    NormalizeAllIff(b);
    hide Normalize, NormalizeAll;
    assert forall i :: 0 <= i < |a| ==> a[i] in a && Normalize(a[i]) in NormalForms(a);
    assert forall i :: 0 <= i < |b| ==> b[i] in b && Normalize(b[i]) in NormalForms(b);
    if a != [] {
      var raw :| raw in b && Normalize(raw) == Normalize(a[0]);
    }
    if b != [] {
      var raw :| raw in a && Normalize(raw) == Normalize(b[0]);
    }
    if NormalizeAll(a).Ok? {
      forall i | 0 <= i < |b| ensures Normalize(b[i]).Ok? {
        var raw :| raw in a && Normalize(raw) == Normalize(b[i]);
      }
      NormalFormsAreOptions(a);
      NormalFormsAreOptions(b);
    }
    if NormalizeAll(b).Ok? {
      forall i | 0 <= i < |a| ensures Normalize(a[i]).Ok? {
        var raw :| raw in b && Normalize(raw) == Normalize(a[i]);
      }
    }
  }

  /** Two options that give one key different values. */
  predicate Conflict(tax: Taxonomy, a: string, b: string) {
    var x, y := Classify(tax, a), Classify(tax, b);
    x.Ok? && x.value.Value? && y.Ok? && y.value.Value? && x.value.key == y.value.key && x.value.value != y.value.value
  }

  ghost predicate Consistent(tax: Taxonomy, options: seq<string>) {
    && (forall o :: o in options ==> Classify(tax, o).Ok?)
    && (forall a, b :: a in options && b in options ==> !Conflict(tax, a, b))
  }

  ghost predicate HoldsFlags(tax: Taxonomy, options: seq<string>, flags: seq<string>) {
    && (forall i, j :: 0 <= i < j < |flags| ==> flags[i] != flags[j])
    && (forall o :: o in flags <==> o in options && Classify(tax, o) == Ok(Flag))
  }

  ghost predicate HoldsValues(tax: Taxonomy, options: seq<string>, values: seq<Entry>) {
    && (forall i, j :: 0 <= i < j < |values| ==> values[i].key != values[j].key)
    && (forall i :: 0 <= i < |values| ==>
          values[i].raw in options && Classify(tax, values[i].raw) == Ok(Value(values[i].key, values[i].value)))
    && (forall o :: o in options && IsValue(tax, o) ==> HasEntry(values, Classify(tax, o).value))
  }

  predicate IsValue(tax: Taxonomy, option: string) {
    Classify(tax, option).Ok? && Classify(tax, option).value.Value?
  }

  predicate HasEntry(values: seq<Entry>, kind: Kind)
    requires kind.Value?
  {
    exists i :: 0 <= i < |values| && values[i].key == kind.key && values[i].value == kind.value
  }

  ghost predicate Summarises(tax: Taxonomy, options: seq<string>, found: Found) {
    HoldsFlags(tax, options, found.flags) && HoldsValues(tax, options, found.values)
  }

  lemma AddedFlag(tax: Taxonomy, options: seq<string>, found: Found, option: string)
    requires Summarises(tax, options, found) && Classify(tax, option) == Ok(Flag)
    ensures AddOption(tax, found, option).Ok? && Summarises(tax, options + [option], AddOption(tax, found, option).value)
  {
    hide Classify;
    var more := options + [option];
    assert forall o :: o in more <==> o in options || o == option;
    if option !in found.flags {
      var flags := found.flags + [option];
      assert forall o :: o in flags <==> o in found.flags || o == option;
    }
  }

  lemma AddedValue(tax: Taxonomy, options: seq<string>, found: Found, option: string)
    requires Summarises(tax, options, found) && IsValue(tax, option)
    ensures AddOption(tax, found, option).Ok? <==> forall a :: a in options ==> !Conflict(tax, a, option)
    ensures AddOption(tax, found, option).Ok? ==> Summarises(tax, options + [option], AddOption(tax, found, option).value)
  {
    hide Classify;
    var kind := Classify(tax, option).value;
    var e := Entry(kind.key, kind.value, option);
    var i := IndexOfKey(found.values, e.key);
    if i < |found.values| && found.values[i].value != e.value {
      assert Conflict(tax, found.values[i].raw, option);
    } else {
      forall a | a in options ensures !Conflict(tax, a, option) {
        if IsValue(tax, a) {
          assert HasEntry(found.values, Classify(tax, a).value);
          var j :| 0 <= j < |found.values| && found.values[j].key == Classify(tax, a).value.key
            && found.values[j].value == Classify(tax, a).value.value;
        }
      }
      var values := AddValue(found.values, e).value;
      EntryAdded(tax, options, found.values, option, values, i);
      assert forall o :: o in options + [option] <==> o in options || o == option;
    }
  }

  lemma EntryAdded(tax: Taxonomy, options: seq<string>, before: seq<Entry>, option: string, after: seq<Entry>, i: nat)
    requires HoldsValues(tax, options, before) && IsValue(tax, option)
    requires i <= |before| && forall j :: 0 <= j < |before| ==> (before[j].key == Classify(tax, option).value.key <==> j == i)
    requires
      var e := Entry(Classify(tax, option).value.key, Classify(tax, option).value.value, option);
      if i == |before| then after == before + [e] else before[i].value == e.value && after == before[i := e]
    ensures HoldsValues(tax, options + [option], after)
  {
    hide Classify;
    var more := options + [option];
    assert forall o :: o in more <==> o in options || o == option;
    forall o | o in more && IsValue(tax, o) ensures HasEntry(after, Classify(tax, o).value) {
      var kind := Classify(tax, o).value;
      if o == option {
        assert after[i].key == kind.key && after[i].value == kind.value;
      } else {
        assert HasEntry(before, kind);
        var j :| 0 <= j < |before| && before[j].key == kind.key && before[j].value == kind.value;
        assert after[j].key == kind.key && after[j].value == kind.value;
      }
    }
  }

  /** Collecting succeeds exactly on consistent options, whatever their order, and summarises them. */
  lemma {:induction false} FoundIffConsistent(tax: Taxonomy, options: seq<string>)
    ensures FoundIn(tax, options).Ok? <==> Consistent(tax, options)
    ensures FoundIn(tax, options).Ok? ==> Summarises(tax, options, FoundIn(tax, options).value)
  {
    hide Classify, AddOption, Conflict, Summarises;
    if options == [] {
      EmptySummary(tax);
    } else {
      var front, last := options[..|options| - 1], options[|options| - 1];
      FoundIffConsistent(tax, front);
      assert options == front + [last];
      assert forall o :: o in options <==> o in front || o == last;
      ConflictIsSymmetric(tax, last);
      if FoundIn(tax, front).Ok? {
        var found := FoundIn(tax, front).value;
        StepIff(tax, front, found, last);
      }
    }
  }

  lemma EmptySummary(tax: Taxonomy)
    ensures Summarises(tax, [], Found([], []))
  {}

  lemma ConflictIsSymmetric(tax: Taxonomy, o: string)
    ensures !Conflict(tax, o, o)
    ensures forall a :: Conflict(tax, a, o) <==> Conflict(tax, o, a)
  {
    hide Classify;
  }

  lemma StepIff(tax: Taxonomy, options: seq<string>, found: Found, option: string)
    requires Summarises(tax, options, found)
    ensures AddOption(tax, found, option).Ok? <==>
      Classify(tax, option).Ok? && forall a :: a in options ==> !Conflict(tax, a, option)
    ensures AddOption(tax, found, option).Ok? ==> Summarises(tax, options + [option], AddOption(tax, found, option).value)
  {
    if IsValue(tax, option) {
      AddedValue(tax, options, found, option);
    } else {
      hide Summarises, IndexOfKey;
      if Classify(tax, option).Ok? {
        AddedFlag(tax, options, found, option);
      }
    }
  }

  /** `-flto` and a value of it exclude each other. */
  ghost predicate FlagClash(tax: Taxonomy, options: seq<string>) {
    && "-flto" in options && Classify(tax, "-flto") == Ok(Flag)
    && exists o :: o in options && IsValue(tax, o) && Classify(tax, o).value.key == "flto"
  }

  lemma FinishIff(tax: Taxonomy, options: seq<string>, found: Found)
    requires Summarises(tax, options, found)
    ensures Finish(found).Ok? <==> !FlagClash(tax, options)
  {
    hide Classify, Sort, TextLeq, KeyLeq;
    var values := found.values;
    var i := IndexOfKey(values, "flto");
    if i < |values| {
      assert IsValue(tax, values[i].raw);
    }
    if o :| o in options && IsValue(tax, o) && Classify(tax, o).value.key == "flto" {
      assert HasEntry(values, Classify(tax, o).value);
    }
  }

  ghost predicate Acceptable(tax: Taxonomy, options: seq<string>) {
    options != [] && Consistent(tax, options) && !FlagClash(tax, options)
  }

  /** Acceptance is decided by the set of normalised options, for every taxonomy. */
  lemma AcceptedIff(tax: Taxonomy, combo: seq<string>)
    ensures Canonical(tax, combo).Ok? <==> NormalizeAll(combo).Ok? && Acceptable(tax, NormalizeAll(combo).value)
  {
    hide Normalize, Consistent, FoundIn, Finish, FlagClash, Summarises, Classify;
    NormalizeAllIff(combo);
    if NormalizeAll(combo).Ok? {
      var options := NormalizeAll(combo).value;
      FoundIffConsistent(tax, options);
      if FoundIn(tax, options).Ok? {
        FinishIff(tax, options, FoundIn(tax, options).value);
      }
    }
  }

  lemma SameOptionsAcceptable(tax: Taxonomy, a: seq<string>, b: seq<string>)
    requires forall o :: o in a <==> o in b
    ensures Acceptable(tax, a) <==> Acceptable(tax, b)
  {
    hide Classify, Conflict;
    assert a != [] ==> a[0] in b;
    assert b != [] ==> b[0] in a;
  }

  /** Order and repetition of the options do not matter for acceptance. */
  lemma AcceptanceForgetsOrder(tax: Taxonomy, a: seq<string>, b: seq<string>)
    requires NormalForms(a) == NormalForms(b)
    ensures Canonical(tax, a).Ok? <==> Canonical(tax, b).Ok?
  {
    hide NormalForms, NormalizeAll, Canonical, Acceptable;
    AcceptedIff(tax, a);
    AcceptedIff(tax, b);
    SameFormsNormalizeAlike(a, b);
    if NormalizeAll(a).Ok? {
      SameOptionsAcceptable(tax, NormalizeAll(a).value, NormalizeAll(b).value);
    }
  }

  /** No two options spell the same value. */
  ghost predicate Unambiguous(tax: Taxonomy) {
    forall a, b :: IsNormal(a) && IsNormal(b) && IsValue(tax, a) && Classify(tax, a) == Classify(tax, b) ==> a == b
  }

  lemma TextOrder(s: seq<string>)
    ensures TotalPreorder(TextLeq()) && NoTies(s, TextLeq())
  {
    KeyOrderIsTotal(Codes, TextLeq());
    forall i, j | 0 <= i < |s| && 0 <= j < |s| && TextLeq()(s[i], s[j]) && TextLeq()(s[j], s[i]) ensures s[i] == s[j] {
      LexAntisymmetric(Codes(s[i]), Codes(s[j]));
      CodesAreInjective(s[i], s[j]);
    }
  }

  lemma KeyOrder(values: seq<Entry>)
    requires forall i, j :: 0 <= i < j < |values| ==> values[i].key != values[j].key
    ensures TotalPreorder(KeyLeq()) && NoTies(values, KeyLeq())
  {
    KeyOrderIsTotal((e: Entry) => Codes(e.key), KeyLeq());
    forall i, j | 0 <= i < |values| && 0 <= j < |values| && KeyLeq()(values[i], values[j]) && KeyLeq()(values[j], values[i])
      ensures values[i] == values[j]
    {
      LexAntisymmetric(Codes(values[i].key), Codes(values[j].key));
      CodesAreInjective(values[i].key, values[j].key);
    }
  }

  lemma EntriesOfSameOptions(tax: Taxonomy, a: seq<string>, b: seq<string>, va: seq<Entry>, vb: seq<Entry>, e: Entry)
    requires Unambiguous(tax) && HoldsValues(tax, a, va) && HoldsValues(tax, b, vb)
    requires forall o :: o in a <==> o in b
    requires forall o :: o in a ==> IsNormal(o)
    requires e in va
    ensures e in vb
  {
    hide Classify, IsNormal;
    var i :| 0 <= i < |va| && va[i] == e;
    assert e.raw in b && IsValue(tax, e.raw);
    assert HasEntry(vb, Classify(tax, e.raw).value);
    var j :| 0 <= j < |vb| && vb[j].key == e.key && vb[j].value == e.value;
    assert Classify(tax, vb[j].raw) == Classify(tax, e.raw);
    assert vb[j] == e;
  }

  lemma SameOptionsSameCandidate(tax: Taxonomy, a: seq<string>, b: seq<string>, fa: Found, fb: Found)
    requires Unambiguous(tax) && Summarises(tax, a, fa) && Summarises(tax, b, fb)
    requires forall o :: o in a <==> o in b
    requires forall o :: o in a ==> IsNormal(o)
    requires Finish(fa).Ok? && Finish(fb).Ok?
    ensures Finish(fa) == Finish(fb)
  {
    hide Classify, IsNormal, Sort, TextLeq, KeyLeq, NoTies, TotalPreorder;
    SameMembersSameMultiset(fa.flags, fb.flags);
    forall e ensures e in fa.values <==> e in fb.values {
      if e in fa.values {
        EntriesOfSameOptions(tax, a, b, fa.values, fb.values, e);
      }
      if e in fb.values {
        EntriesOfSameOptions(tax, b, a, fb.values, fa.values, e);
      }
    }
    SameMembersSameMultiset(fa.values, fb.values);
    TextOrder(fa.flags);
    KeyOrder(fa.values);
    SortForgetsOrder(fa.flags, fb.flags, TextLeq());
    SortForgetsOrder(fa.values, fb.values, KeyLeq());
  }

  lemma CanonicalIsFinished(tax: Taxonomy, combo: seq<string>)
    requires Canonical(tax, combo).Ok?
    ensures NormalizeAll(combo).Ok? && FoundIn(tax, NormalizeAll(combo).value).Ok?
    ensures Canonical(tax, combo) == Finish(FoundIn(tax, NormalizeAll(combo).value).value)
    ensures Summarises(tax, NormalizeAll(combo).value, FoundIn(tax, NormalizeAll(combo).value).value)
    ensures Consistent(tax, NormalizeAll(combo).value)
  {
    hide Summarises, Consistent, Classify, NormalizeAll, FoundIn, Finish;
    FoundIffConsistent(tax, NormalizeAll(combo).value);
  }

  /** Under an unambiguous taxonomy the candidate depends on the set of normalised options only. */
  lemma SameFormsSameCandidate(tax: Taxonomy, a: seq<string>, b: seq<string>)
    requires Unambiguous(tax) && Canonical(tax, a).Ok? && NormalForms(a) == NormalForms(b)
    ensures Canonical(tax, b) == Canonical(tax, a)
  {
    hide Unambiguous, Canonical, NormalForms, NormalizeAll, FoundIn, Finish, Summarises, IsNormal;
    AcceptanceForgetsOrder(tax, a, b);
    CanonicalIsFinished(tax, a);
    CanonicalIsFinished(tax, b);
    SameFormsNormalizeAlike(a, b);
    NormalFormsAreOptions(a);
    SameOptionsSameCandidate(tax, NormalizeAll(a).value, NormalizeAll(b).value,
      FoundIn(tax, NormalizeAll(a).value).value, FoundIn(tax, NormalizeAll(b).value).value);
  }

  /** Two spellings of one value: the later one is kept. */
  lemma LaterSpellingWins(tax: Taxonomy, a: string, b: string)
    requires IsNormal(a) && IsNormal(b) && a != b
    requires IsValue(tax, a) && Classify(tax, a) == Classify(tax, b)
    ensures NormalForms([a, b]) == NormalForms([b, a])
    ensures Canonical(tax, [a, b]).Ok? && Canonical(tax, [b, a]).Ok? && Canonical(tax, [a, b]) != Canonical(tax, [b, a])
  {
    NormalIffFixed(a);
    NormalIffFixed(b);
    hide Normalize, IsNormal, Classify;
    TwoSpellings(tax, a, b);
    TwoSpellings(tax, b, a);
    assert forall o :: o in [a, b] <==> o in [b, a];
  }

  lemma TwoSpellings(tax: Taxonomy, a: string, b: string)
    requires Normalize(a) == Ok(a) && Normalize(b) == Ok(b)
    requires IsValue(tax, a) && Classify(tax, a) == Classify(tax, b)
    ensures
      var kind := Classify(tax, a).value;
      Canonical(tax, [a, b]) == Ok(Candidate([], [Entry(kind.key, kind.value, b)]))
  {
    TwoNormalized(a, b);
    TwoFound(tax, a, b);
    SingletonIsSorted(Entry(Classify(tax, a).value.key, Classify(tax, a).value.value, b));
    hide NormalizeAll, FoundIn, Classify, Sort, TextLeq, KeyLeq;
  }

  lemma TwoNormalized(a: string, b: string)
    requires Normalize(a) == Ok(a) && Normalize(b) == Ok(b)
    ensures NormalizeAll([a, b]) == Ok([a, b])
  {
    NormalizeAllIff([a, b]);
    hide NormalizeAll, Normalize;
    assert NormalizeAll([a, b]).value == [a, b];
  }

  lemma TwoFound(tax: Taxonomy, a: string, b: string)
    requires IsValue(tax, a) && Classify(tax, a) == Classify(tax, b)
    ensures FoundIn(tax, [a, b]) == Ok(Found([], [Entry(Classify(tax, a).value.key, Classify(tax, a).value.value, b)]))
  {
    hide Classify;
    var kind := Classify(tax, a).value;
    var first, second := Entry(kind.key, kind.value, a), Entry(kind.key, kind.value, b);
    FoundSnoc(tax, [], a);
    FoundSnoc(tax, [a], b);
    assert [] + [a] == [a] && [a] + [b] == [a, b];
    hide FoundIn;
    assert [] + [first] == [first] && [first][0 := second] == [second];
    assert AddOption(tax, Found([], []), a) == Ok(Found([], [first]));
    assert AddOption(tax, Found([], [first]), b) == Ok(Found([], [second]));
  }

  lemma FoundSnoc(tax: Taxonomy, options: seq<string>, option: string)
    ensures FoundIn(tax, []) == Ok(Found([], []))
    ensures FoundIn(tax, options).Ok? ==>
      FoundIn(tax, options + [option]) == AddOption(tax, FoundIn(tax, options).value, option)
  {
    assert (options + [option])[..|options|] == options;
  }

  lemma SingletonIsSorted(e: Entry)
    ensures Sort([e], KeyLeq()) == [e] && Sort([], TextLeq()) == []
  {
    assert Sort([], KeyLeq()) == [];
  }

  /**
   Identity is exact if and only if the taxonomy is unambiguous: then, and only then, do all accepted
   combinations with the same normalised options have the same canonical candidate.
   */
  lemma IdentityIsExactIff(tax: Taxonomy)
    ensures Unambiguous(tax) <==>
      forall a, b :: Canonical(tax, a).Ok? && NormalForms(a) == NormalForms(b) ==> Canonical(tax, a) == Canonical(tax, b)
  {
    hide Canonical, NormalForms, IsNormal, Classify;
    if Unambiguous(tax) {
      forall a, b | Canonical(tax, a).Ok? && NormalForms(a) == NormalForms(b) ensures Canonical(tax, a) == Canonical(tax, b) {
        SameFormsSameCandidate(tax, a, b);
      }
    } else {
      var a, b :| IsNormal(a) && IsNormal(b) && IsValue(tax, a) && Classify(tax, a) == Classify(tax, b) && a != b;
      LaterSpellingWins(tax, a, b);
    }
  }

  predicate NulFree(s: string) {
    forall i :: 0 <= i < |s| ==> s[i] != NUL
  }

  /** A text without NUL, and a NUL behind it, can be read off the front. */
  lemma FirstField(a: string, x: string, b: string, y: string)
    requires NulFree(a) && NulFree(b) && a + [NUL] + x == b + [NUL] + y
    ensures a == b && x == y
  {
    var s := a + [NUL] + x;
    assert s[|a|] == NUL && s[|b|] == NUL;
    assert forall i :: 0 <= i < |a| ==> s[i] == a[i];
    assert forall i :: 0 <= i < |b| ==> s[i] == b[i];
    assert |a| == |b|;
    assert a == s[..|a|] && b == s[..|b|];
    assert x == s[|a| + 1..] && y == s[|b| + 1..];
  }

  lemma NotASingleField(a: string, b: string, y: string)
    requires NulFree(a)
    ensures a != b + [NUL] + y
  {
    assert (b + [NUL] + y)[|b|] == NUL;
  }

  /** The joined payload determines the items. */
  lemma {:induction false} PayloadIsInjective(a: seq<string>, b: seq<string>)
    requires a != [] && b != [] && Payload(a) == Payload(b)
    requires forall i :: 0 <= i < |a| ==> NulFree(a[i])
    requires forall i :: 0 <= i < |b| ==> NulFree(b[i])
    ensures a == b
  {
    hide NulFree;
    if |a| == 1 && |b| == 1 {
      assert a == [a[0]] && b == [b[0]];
    } else if |a| == 1 {
      NotASingleField(a[0], b[0], Payload(b[1..]));
    } else if |b| == 1 {
      NotASingleField(b[0], a[0], Payload(a[1..]));
    } else {
      FirstField(a[0], Payload(a[1..]), b[0], Payload(b[1..]));
      PayloadIsInjective(a[1..], b[1..]);
      assert a == [a[0]] + a[1..] && b == [b[0]] + b[1..];
    }
  }

  /** The items are the normalised options, each once, in text order. */
  ghost predicate ListsOptions(items: seq<string>, options: seq<string>) {
    && SortedBy(items, TextLeq())
    && (forall i, j :: 0 <= i < j < |items| ==> items[i] != items[j])
    && (forall o :: o in items <==> o in options)
  }

  lemma HashItemsListOptions(tax: Taxonomy, combo: seq<string>)
    requires Unambiguous(tax) && Canonical(tax, combo).Ok?
    ensures NormalizeAll(combo).Ok?
    ensures ListsOptions(HashItems(Canonical(tax, combo).value), NormalizeAll(combo).value)
  {
    hide Unambiguous, NormalizeAll, FoundIn, Summarises, IsNormal, Classify, Canonical, Consistent;
    CanonicalIsFinished(tax, combo);
    NormalFormsAreOptions(combo);
    var options := NormalizeAll(combo).value;
    var found := FoundIn(tax, options).value;
    ItemsOfFound(tax, options, found);
  }

  lemma ItemsOfFound(tax: Taxonomy, options: seq<string>, found: Found)
    requires Unambiguous(tax) && Summarises(tax, options, found) && Finish(found).Ok? && Consistent(tax, options)
    requires forall o :: o in options ==> IsNormal(o)
    ensures ListsOptions(HashItems(Finish(found).value), options)
  {
    hide IsNormal, Classify, Sort, TextLeq, KeyLeq, Conflict;
    var c := Finish(found).value;
    SortPermutes(found.flags, TextLeq());
    SortPermutes(found.values, KeyLeq());
    SortMembers(found.flags, TextLeq());
    SortMembers(found.values, KeyLeq());
    MultisetKeepsDistinct(found.flags, c.flags);
    MultisetKeepsKeys(found.values, c.values);
    RawsAreOptions(tax, options, found.flags, found.values, c.flags, c.values);
    var items := c.flags + Raws(c.values);
    TextOrder(items);
    SortSorts(items, TextLeq());
    SortPermutes(items, TextLeq());
    SortMembers(items, TextLeq());
    MultisetKeepsDistinct(items, Sort(items, TextLeq()));
  }

  lemma MultisetKeepsKeys(a: seq<Entry>, b: seq<Entry>)
    requires multiset(a) == multiset(b)
    requires forall i, j :: 0 <= i < j < |a| ==> a[i].key != a[j].key
    ensures forall i, j :: 0 <= i < j < |b| ==> b[i].key != b[j].key
  {
    MultisetKeepsDistinct(a, b);
    forall i, j | 0 <= i < j < |b| ensures b[i].key != b[j].key {
      assert b[i] in multiset(a) && b[j] in multiset(a);
      var k :| 0 <= k < |a| && a[k] == b[i];
      var l :| 0 <= l < |a| && a[l] == b[j];
      assert k != l;
    }
  }

  lemma RawsAreOptions(
      tax: Taxonomy, options: seq<string>, flags: seq<string>, values: seq<Entry>, flags': seq<string>, values': seq<Entry>)
    requires Unambiguous(tax) && Consistent(tax, options)
    requires HoldsFlags(tax, options, flags) && HoldsValues(tax, options, values)
    requires forall o :: o in options ==> IsNormal(o)
    requires forall o :: o in flags' <==> o in flags
    requires forall e :: e in values' <==> e in values
    requires forall i, j :: 0 <= i < j < |flags'| ==> flags'[i] != flags'[j]
    requires forall i, j :: 0 <= i < j < |values'| ==> values'[i].key != values'[j].key
    ensures var items := flags' + Raws(values');
      && (forall o :: o in items <==> o in options)
      && (forall i, j :: 0 <= i < j < |items| ==> items[i] != items[j])
  {
    hide IsNormal, Classify, Conflict;
    var raws := Raws(values');
    forall o ensures o in raws <==> o in options && IsValue(tax, o) {
      RawIffValue(tax, options, values, values', o);
    }
    assert forall o :: o in options ==> IsValue(tax, o) || Classify(tax, o) == Ok(Flag);
    forall i, j | 0 <= i < j < |raws| ensures raws[i] != raws[j] {
      assert values'[i] in values && values'[j] in values;
      assert Classify(tax, raws[i]) == Ok(Value(values'[i].key, values'[i].value));
      assert Classify(tax, raws[j]) == Ok(Value(values'[j].key, values'[j].value));
    }
    var items := flags' + raws;
    forall i, j | 0 <= i < j < |items| ensures items[i] != items[j] {
      if i < |flags'| <= j {
        assert items[i] in flags && items[j] == raws[j - |flags'|] && raws[j - |flags'|] in raws;
      }
    }
    assert forall o :: o in items <==> o in flags' || o in raws;
  }

  lemma RawIffValue(tax: Taxonomy, options: seq<string>, values: seq<Entry>, values': seq<Entry>, o: string)
    requires Unambiguous(tax) && HoldsValues(tax, options, values)
    requires forall x :: x in options ==> IsNormal(x)
    requires forall e :: e in values' <==> e in values
    ensures o in Raws(values') <==> o in options && IsValue(tax, o)
  {
    hide IsNormal, Classify;
    var raws := Raws(values');
    if o in raws {
      var i :| 0 <= i < |raws| && raws[i] == o;
      assert values'[i] in values;
    }
    if o in options && IsValue(tax, o) {
      assert HasEntry(values, Classify(tax, o).value);
      var j :| 0 <= j < |values| && values[j].key == Classify(tax, o).value.key
        && values[j].value == Classify(tax, o).value.value;
      assert Classify(tax, values[j].raw) == Classify(tax, o);
      assert values[j].raw == o;
      assert values[j] in values';
      var k :| 0 <= k < |values'| && values'[k] == values[j];
      assert raws[k] == o;
    }
  }

  /** Hash identity: accepted combinations have the same payload if and only if they have the same normalised options. */
  lemma PayloadIsExact(tax: Taxonomy, a: seq<string>, b: seq<string>)
    requires Unambiguous(tax) && Canonical(tax, a).Ok? && Canonical(tax, b).Ok?
    ensures
      Payload(HashItems(Canonical(tax, a).value)) == Payload(HashItems(Canonical(tax, b).value))
      <==> NormalForms(a) == NormalForms(b)
  {
    HashItemsListOptions(tax, a);
    HashItemsListOptions(tax, b);
    NormalFormsAreOptions(a);
    NormalFormsAreOptions(b);
    hide Unambiguous, Canonical, NormalizeAll, IsNormal, HashItems, Normalize;
    var x, y := HashItems(Canonical(tax, a).value), HashItems(Canonical(tax, b).value);
    if NormalForms(a) == NormalForms(b) {
      SameFormsSameCandidate(tax, a, b);
    }
    if Payload(x) == Payload(y) {
      NonEmptyOptions(tax, a);
      NonEmptyOptions(tax, b);
      NormalIsNulFree(x, NormalizeAll(a).value);
      NormalIsNulFree(y, NormalizeAll(b).value);
      PayloadIsInjective(x, y);
      SameOptionsSameForms(a, b);
    }
  }

  lemma NonEmptyOptions(tax: Taxonomy, combo: seq<string>)
    requires Canonical(tax, combo).Ok?
    ensures NormalizeAll(combo).Ok? && NormalizeAll(combo).value != []
  {
    AcceptedIff(tax, combo);
    hide Canonical, NormalizeAll, Consistent, FlagClash;
  }

  lemma NormalIsNulFree(items: seq<string>, options: seq<string>)
    requires options != []
    requires forall o :: o in items <==> o in options
    requires forall o :: o in options ==> IsNormal(o)
    ensures items != [] && forall i :: 0 <= i < |items| ==> NulFree(items[i])
  {
    assert options[0] in items;
    forall i | 0 <= i < |items| ensures NulFree(items[i]) {
      assert items[i] in items;
      ControlFree(items[i]);
    }
  }

  lemma ControlFree(s: string)
    requires IsNormal(s)
    ensures NulFree(s)
  {
    forall i | 0 <= i < |s| ensures s[i] != NUL {
      assert !IsControl(s[i]);
    }
  }

  lemma SameOptionsSameForms(a: seq<string>, b: seq<string>)
    requires NormalizeAll(a).Ok? && NormalizeAll(b).Ok?
    requires forall o :: o in NormalizeAll(a).value <==> o in NormalizeAll(b).value
    ensures NormalForms(a) == NormalForms(b)
  {
    FormsAreOk(a);
    FormsAreOk(b);
    NormalFormsAreOptions(a);
    NormalFormsAreOptions(b);
    hide NormalForms, NormalizeAll, IsNormal;
    forall r ensures r in NormalForms(a) <==> r in NormalForms(b) {
      if r.Ok? {
        assert r.value in NormalizeAll(a).value <==> Ok(r.value) in NormalForms(a);
        assert r.value in NormalizeAll(b).value <==> Ok(r.value) in NormalForms(b);
      }
    }
  }

  lemma FormsAreOk(combo: seq<string>)
    requires NormalizeAll(combo).Ok?
    ensures forall r :: r in NormalForms(combo) ==> r.Ok?
  {
    NormalizeAllIff(combo);
    hide Normalize, NormalizeAll;
    forall r | r in NormalForms(combo) ensures r.Ok? {
      var raw :| raw in combo && Normalize(raw) == r;
      var i :| 0 <= i < |combo| && combo[i] == raw;
    }
  }

  lemma NormalsNormalize(items: seq<string>)
    requires forall i :: 0 <= i < |items| ==> IsNormal(items[i])
    ensures NormalizeAll(items) == Ok(items)
  {
    NormalizeAllIff(items);
    hide Normalize, IsNormal, NormalizeAll;
    forall i | 0 <= i < |items| ensures Normalize(items[i]) == Ok(items[i]) {
      NormalIffFixed(items[i]);
    }
    assert NormalizeAll(items).value == items;
  }

  /** Round trip: the items of a canonical candidate have that candidate. */
  lemma CanonicalOfHashItems(tax: Taxonomy, combo: seq<string>)
    requires Unambiguous(tax) && Canonical(tax, combo).Ok?
    ensures Canonical(tax, HashItems(Canonical(tax, combo).value)) == Canonical(tax, combo)
  {
    HashItemsListOptions(tax, combo);
    NormalFormsAreOptions(combo);
    hide Unambiguous, Canonical, NormalizeAll, IsNormal, HashItems, NormalForms;
    var items := HashItems(Canonical(tax, combo).value);
    assert forall i :: 0 <= i < |items| ==> items[i] in items;
    NormalsNormalize(items);
    SameOptionsSameForms(combo, items);
    SameFormsSameCandidate(tax, combo, items);
  }

  /** Where the two spellings come from: a literal of the value, or a prefix of its key in front of it. */
  ghost function Spellings(tax: Taxonomy, key: string, value: string): set<string> {
    (set l | l in tax.literals && IsSpelling(tax, key, value, l))
    + (set p | p in tax.prefixes && IsSpelling(tax, key, value, p + value) :: p + value)
  }

  ghost predicate IsSpelling(tax: Taxonomy, key: string, value: string, option: string) {
    IsNormal(option) && Classify(tax, option) == Ok(Value(key, value))
  }

  lemma SpellingsAreAll(tax: Taxonomy, key: string, value: string, option: string)
    ensures option in Spellings(tax, key, value) <==> IsSpelling(tax, key, value, option)
  {
    if IsSpelling(tax, key, value, option) && option !in tax.literals {
      var prefix := LongestPrefix(tax.prefixes, option, |option|).value;
      assert option == prefix + option[|prefix|..];
    }
  }

  lemma AtMostOne(s: set<string>)
    ensures |s| <= 1 <==> forall a, b :: a in s && b in s ==> a == b
  {
    if a :| a in s {
      assert s == {a} + (s - {a});
      if |s| <= 1 {
        assert |s - {a}| == 0;
      }
      if forall x, y :: x in s && y in s ==> x == y {
        assert s - {a} == {};
      }
    }
  }

  /** The taxonomy is unambiguous if and only if its tables spell each value at most once. */
  lemma UnambiguousIff(tax: Taxonomy)
    ensures Unambiguous(tax) <==> forall key, value :: |Spellings(tax, key, value)| <= 1
  {
    hide Spellings, Classify, IsNormal;
    forall key, value, option ensures option in Spellings(tax, key, value) <==> IsSpelling(tax, key, value, option) {
      SpellingsAreAll(tax, key, value, option);
    }
    forall key, value
      ensures |Spellings(tax, key, value)| <= 1 <==>
        forall a, b :: IsSpelling(tax, key, value, a) && IsSpelling(tax, key, value, b) ==> a == b
    {
      AtMostOne(Spellings(tax, key, value));
    }
    if forall key, value :: |Spellings(tax, key, value)| <= 1 {
      forall a, b | IsNormal(a) && IsNormal(b) && IsValue(tax, a) && Classify(tax, a) == Classify(tax, b) ensures a == b {
        var kind := Classify(tax, a).value;
        assert |Spellings(tax, kind.key, kind.value)| <= 1;
        assert IsSpelling(tax, kind.key, kind.value, a) && IsSpelling(tax, kind.key, kind.value, b);
      }
    }
  }

  /** Tables in which no two literals share a value, no two prefixes a key, and no literal the key of a prefix. */
  ghost predicate ClearTables(tax: Taxonomy) {
    && (forall l, m :: l in tax.literals && m in tax.literals && tax.literals[l] == tax.literals[m] ==> l == m)
    && (forall p, q :: p in tax.prefixes && q in tax.prefixes && tax.prefixes[p] == tax.prefixes[q] ==> p == q)
    && (forall l, p :: l in tax.literals && p in tax.prefixes ==> tax.literals[l].0 != tax.prefixes[p])
  }

  lemma SpelledByTables(tax: Taxonomy, option: string)
    requires IsValue(tax, option)
    ensures
      var kind := Classify(tax, option).value;
      if option in tax.literals then tax.literals[option] == (kind.key, kind.value)
      else
        var p := LongestPrefix(tax.prefixes, option, |option|);
        p.Some? && tax.prefixes[p.value] == kind.key && option == p.value + kind.value
  {
    hide IsUnsupported, LongestPrefix;
    var p := LongestPrefix(tax.prefixes, option, |option|);
    if option !in tax.literals && p.Some? {
      assert option == option[..|p.value|] + option[|p.value|..];
    }
  }

  lemma ClearTablesSuffice(tax: Taxonomy)
    requires ClearTables(tax)
    ensures Unambiguous(tax)
  {
    forall a, b | IsNormal(a) && IsNormal(b) && IsValue(tax, a) && Classify(tax, a) == Classify(tax, b) ensures a == b {
      SpelledByTables(tax, a);
      SpelledByTables(tax, b);
      hide IsNormal, Classify;
    }
  }

  /** The default taxonomy is unambiguous, and so its identity is exact. */
  lemma DefaultIsUnambiguous()
    ensures Unambiguous(DEFAULT_TAXONOMY)
  {
    hide Unambiguous;
    DefaultLiteralsDiffer();
    DefaultPrefixesDiffer();
    ClearTablesSuffice(DEFAULT_TAXONOMY);
  }

  lemma DefaultLiteralsDiffer()
    ensures forall l :: l in DEFAULT_LITERALS ==> DEFAULT_LITERALS[l].0 == "opt_level" && l == "-" + DEFAULT_LITERALS[l].1
  {}

  lemma DefaultPrefixesDiffer()
    ensures forall p :: p in DEFAULT_PREFIXES ==> DEFAULT_PREFIXES[p] != "opt_level" && p == "-" + DEFAULT_PREFIXES[p] + "="
  {}

  lemma SpellingPayload(tax: Taxonomy, e: Entry)
    ensures Payload(HashItems(Candidate([], [e]))) == e.raw
  {
    assert Raws([e]) == [e.raw] && [] + [e.raw] == [e.raw];
    assert Sort([], TextLeq()) == [] && Sort([e.raw], TextLeq()) == [e.raw];
  }

  /** The payload law holds for all accepted combinations if and only if the taxonomy is unambiguous. */
  lemma PayloadIsExactIff(tax: Taxonomy)
    ensures Unambiguous(tax) <==>
      forall a, b :: Canonical(tax, a).Ok? && Canonical(tax, b).Ok? ==>
        (NormalForms(a) == NormalForms(b) <==>
          Payload(HashItems(Canonical(tax, a).value)) == Payload(HashItems(Canonical(tax, b).value)))
  {
    hide Canonical, NormalForms, IsNormal, Classify, HashItems, Payload, Normalize;
    if Unambiguous(tax) {
      forall a, b | Canonical(tax, a).Ok? && Canonical(tax, b).Ok?
        ensures Payload(HashItems(Canonical(tax, a).value)) == Payload(HashItems(Canonical(tax, b).value))
          <==> NormalForms(a) == NormalForms(b)
      {
        PayloadIsExact(tax, a, b);
      }
    } else {
      var a, b :| IsNormal(a) && IsNormal(b) && IsValue(tax, a) && Classify(tax, a) == Classify(tax, b) && a != b;
      NormalIffFixed(a);
      NormalIffFixed(b);
      LaterSpellingWins(tax, a, b);
      TwoSpellings(tax, a, b);
      TwoSpellings(tax, b, a);
      var kind := Classify(tax, a).value;
      SpellingPayload(tax, Entry(kind.key, kind.value, a));
      SpellingPayload(tax, Entry(kind.key, kind.value, b));
    }
  }

  /** For the default taxonomy: equal payloads are equal sets of normalised options, and hash items are their own. */
  lemma DefaultIdentityIsExact(a: seq<string>, b: seq<string>)
    requires Canonical(DEFAULT_TAXONOMY, a).Ok? && Canonical(DEFAULT_TAXONOMY, b).Ok?
    ensures
      var items := HashItems(Canonical(DEFAULT_TAXONOMY, a).value);
      && (Payload(items) == Payload(HashItems(Canonical(DEFAULT_TAXONOMY, b).value)) <==> NormalForms(a) == NormalForms(b))
      && Canonical(DEFAULT_TAXONOMY, items) == Canonical(DEFAULT_TAXONOMY, a)
  {
    hide Canonical, HashItems, Payload, Unambiguous, NormalForms;
    DefaultIsUnambiguous();
    PayloadIsExact(DEFAULT_TAXONOMY, a, b);
    CanonicalOfHashItems(DEFAULT_TAXONOMY, a);
  }

  /** A taxonomy in which "-speed" spells a default value again. */
  const ALIASED := Taxonomy({}, DEFAULT_PREFIXES, DEFAULT_LITERALS + map["-speed" := ("opt_level", "O2")], [])

  lemma AliasedIsCustomised()
    ensures Customised({}, map[], map["-speed" := ("opt_level", "O2")], []) == Ok(ALIASED)
  {
    var none: map<string, string> := map[];
    assert DEFAULT_PREFIXES + none == DEFAULT_PREFIXES;
    var flags: set<string> := {};
    hide Normalize;
    assert NormalFlags(flags) == {};
    assert Customised(flags, none, map["-speed" := ("opt_level", "O2")], []).Ok?;
  }

  lemma AliasedValues()
    ensures Classify(ALIASED, "-O2") == Ok(Value("opt_level", "O2")) == Classify(ALIASED, "-speed")
  {}

  lemma AliasedAreNormal()
    ensures IsNormal("-O2") && IsNormal("-speed")
  {}

  /** Such a customisation makes identity depend on the order of the options. */
  lemma AliasIsAmbiguous()
    ensures Customised({}, map[], map["-speed" := ("opt_level", "O2")], []) == Ok(ALIASED)
    ensures !Unambiguous(ALIASED)
    ensures Canonical(ALIASED, ["-O2", "-speed"]) != Canonical(ALIASED, ["-speed", "-O2"])
  {
    AliasedIsCustomised();
    AliasedValues();
    AliasedAreNormal();
    hide Classify, IsNormal, Canonical, Customised, Normalize, NormalForms;
    LaterSpellingWins(ALIASED, "-O2", "-speed");
  }
}
