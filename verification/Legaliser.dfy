/** Identifiers, and the legaliser that gives every name an identifier of its own. */
module Legaliser {
  import opened Options
  import opened SeqLists
  import opened Decimals

  // ----- identifiers -----

  predicate IsLetter(c: char) { 'a' <= c <= 'z' || 'A' <= c <= 'Z' }
  predicate IsAlnum(c: char) { IsLetter(c) || IsDigit(c) }
  predicate IsAscii(c: char) { c as int < 128 }

  /** A letter or underscore, followed by letters, digits and underscores, all of them ASCII. */
  predicate IsIdentifier(s: string) {
    s != [] && (IsLetter(s[0]) || s[0] == '_') && forall i :: 1 <= i < |s| ==> IsAlnum(s[i]) || s[i] == '_'
  }

  method IsValid(s: string) returns (r: bool)
    ensures r <==> IsIdentifier(s)
  {
    if s == [] { return false; }
    if !(IsLetter(s[0]) || s[0] == '_') { return false; }
    var i := 1;
    while i < |s|
      invariant 1 <= i <= |s|
      invariant forall j :: 1 <= j < i ==> IsAlnum(s[j]) || s[j] == '_'
    {
      if !(IsAlnum(s[i]) || s[i] == '_') { return false; }
      i := i + 1;
    }
    return true;
  }

  // ----- candidates -----

  /** The names tried in turn: the legal name itself, then the legal name with a number behind it. */
  function Candidate(legal: string, counter: nat, k: nat): string {
    if k == 0 then legal else legal + "_" + Decimal(counter + k - 1)
  }

  lemma CandidatesDiffer(legal: string, counter: nat, j: nat, k: nat)
    requires j < k
    ensures Candidate(legal, counter, j) != Candidate(legal, counter, k)
  {
    var a, b := Candidate(legal, counter, j), Candidate(legal, counter, k);
    if j > 0 && a == b {
      var m := |legal| + 1;
      assert a[m..] == Decimal(counter + j - 1) && b[m..] == Decimal(counter + k - 1);
      DecimalValue(counter + j - 1);
      DecimalValue(counter + k - 1);
    }
  }

  /** Letters, digits and underscores behind a name change nothing. */
  lemma Suffixed(a: string, b: string)
    requires a != [] && forall i :: 0 <= i < |b| ==> IsAlnum(b[i]) || b[i] == '_'
    ensures IsIdentifier(a + b) <==> IsIdentifier(a)
  {
    assert forall i :: 0 <= i < |a| ==> (a + b)[i] == a[i];
    assert forall i :: |a| <= i < |a + b| ==> (a + b)[i] == b[i - |a|];
  }

  lemma CandidateValid(legal: string, counter: nat, k: nat)
    requires legal != []
    ensures IsIdentifier(Candidate(legal, counter, k)) <==> IsIdentifier(legal)
  {
    if k > 0 {
      DecimalValue(counter + k - 1);
      assert Candidate(legal, counter, k) == legal + ("_" + Decimal(counter + k - 1));
      Suffixed(legal, "_" + Decimal(counter + k - 1));
    }
  }

  // ----- replacing illegal characters -----

  /** What is known of the alphabetic characters of Unicode: which of the ASCII ones are. */
  ghost predicate Alphabet(alphabetic: char -> bool) {
    forall c :: IsAscii(c) ==> (alphabetic(c) <==> IsLetter(c))
  }

  function ReplaceIllegal(alphabetic: char -> bool, name: string): (r: string)
    ensures r != []
  {
    if IsIdentifier(name) then name
    else if name == [] then "_"
    else [if alphabetic(name[0]) then name[0] else '_'] + Replaced(name[1..])
  }

  function Replaced(s: string): (r: string)
    ensures |r| == |s| && forall i :: 0 <= i < |s| ==> r[i] == if IsAlnum(s[i]) then s[i] else '_'
  {
    if s == [] then [] else [if IsAlnum(s[0]) then s[0] else '_'] + Replaced(s[1..])
  }

  /** Character by character: a letter, digit or underscore is kept, and so is an alphabetic character in front; everything
      else, and a digit in front, becomes an underscore. */
  lemma KeptCharacters(alphabetic: char -> bool, name: string, i: nat)
    requires Alphabet(alphabetic) && i < |name|
    ensures var r := ReplaceIllegal(alphabetic, name);
            && |r| == |name|
            && r[i] == if name[i] == '_' || (if i == 0 then alphabetic(name[i]) else IsAlnum(name[i])) then name[i] else '_'
    ensures ReplaceIllegal(alphabetic, "") == "_"
  {
    if !IsIdentifier(name) && i > 0 { assert ReplaceIllegal(alphabetic, name)[i] == Replaced(name[1..])[i - 1]; }
  }

  /** The result is an identifier unless the name begins with an alphabetic character outside of ASCII, which is kept. */
  lemma LegalIff(alphabetic: char -> bool, name: string)
    requires Alphabet(alphabetic)
    ensures IsIdentifier(ReplaceIllegal(alphabetic, name)) <==> name == [] || IsAscii(name[0]) || !alphabetic(name[0])
    ensures IsIdentifier(name) ==> ReplaceIllegal(alphabetic, name) == name
  {
    if name != [] && !IsIdentifier(name) {
      var r := ReplaceIllegal(alphabetic, name);
      assert forall i :: 1 <= i < |r| ==> r[i] == Replaced(name[1..])[i - 1];
    }
  }

  // ----- the legaliser -----

  /** The two maps undo each other. */
  ghost predicate Inverse(ids: map<string, string>, names: map<string, string>) {
    && (forall n :: n in ids ==> ids[n] in names && names[ids[n]] == n)
    && (forall i :: i in names ==> names[i] in ids && ids[names[i]] == i)
  }

  /** Different names have different identifiers. */
  lemma InverseInjective(ids: map<string, string>, names: map<string, string>, m: string, n: string)
    requires Inverse(ids, names) && m in ids && n in ids
    ensures ids[m] == ids[n] <==> m == n
  {
    assert names[ids[m]] == m && names[ids[n]] == n;
  }

  lemma InverseInsert(ids: map<string, string>, names: map<string, string>, name: string, id: string)
    requires Inverse(ids, names) && name !in ids && id !in names
    ensures Inverse(ids[name := id], names[id := name])
  {
    forall i | i in names ensures names[i] != name { assert names[i] in ids; }
    forall n | n in ids ensures ids[n] != id { assert ids[n] in names; }
  }

  /** The first `n` candidates. */
  ghost function Candidates(legal: string, counter: nat, n: nat): set<string> {
    if n == 0 then {} else Candidates(legal, counter, n - 1) + {Candidate(legal, counter, n - 1)}
  }

  /** They are `n` different ones. */
  lemma {:induction false} CandidatesAre(legal: string, counter: nat, n: nat)
    ensures |Candidates(legal, counter, n)| == n
    ensures forall k :: 0 <= k < n ==> Candidate(legal, counter, k) in Candidates(legal, counter, n)
  {
    if n > 0 {
      CandidatesAre(legal, counter, n - 1);
      NextCandidate(legal, counter, n - 1);
    }
  }

  lemma {:induction false} NextCandidate(legal: string, counter: nat, n: nat)
    ensures Candidate(legal, counter, n) !in Candidates(legal, counter, n)
  {
    NotBefore(legal, counter, n, n);
  }

  lemma {:induction false} NotBefore(legal: string, counter: nat, k: nat, n: nat)
    requires k <= n
    ensures Candidate(legal, counter, n) !in Candidates(legal, counter, k)
  {
    if k > 0 {
      NotBefore(legal, counter, k - 1, n);
      CandidatesDiffer(legal, counter, k - 1, n);
    }
  }

  class Legaliser {
    const alphabetic: char -> bool
    var strToId: map<string, string>
    var revStrToId: map<string, string>
    var counter: nat

    ghost predicate Valid()
      reads this
    {
      Alphabet(alphabetic) && Inverse(strToId, revStrToId)
    }

    constructor (alphabetic: char -> bool)
      requires Alphabet(alphabetic)
      ensures Valid() && this.alphabetic == alphabetic && strToId == map[]
    {
      this.alphabetic, strToId, revStrToId, counter := alphabetic, map[], map[], 0;
    }

    /** A name keeps the identifier it was given first. A new name gets the first candidate not given out yet, after
        no more renamings than there are names. */
    method Legalise(name: string) returns (id: string, ghost renamings: nat)
      requires Valid()
      modifies this
      ensures Valid() && name in strToId && id == strToId[name] && revStrToId[id] == name
      ensures name in old(strToId) ==> strToId == old(strToId) && revStrToId == old(revStrToId) && counter == old(counter)
      ensures name !in old(strToId) ==>
                && strToId == old(strToId)[name := id] && revStrToId == old(revStrToId)[id := name] && id !in old(revStrToId)
                && id == Candidate(ReplaceIllegal(alphabetic, name), old(counter), renamings)
                && (renamings == 0 ==> id == ReplaceIllegal(alphabetic, name))
                && (renamings > 0 ==> id == ReplaceIllegal(alphabetic, name) + "_" + Decimal(old(counter) + renamings - 1))
                && (forall k :: 0 <= k < renamings ==> Candidate(ReplaceIllegal(alphabetic, name), old(counter), k) in old(revStrToId))
                && renamings <= |old(revStrToId)| && counter == old(counter) + renamings
                && (IsIdentifier(id) <==> name == [] || IsAscii(name[0]) || !alphabetic(name[0]))
    {
      renamings := 0;
      if name in strToId { return strToId[name], 0; }
      var legal := ReplaceIllegal(alphabetic, name);
      id, renamings := Unique(legal);
      InverseInsert(strToId, revStrToId, name, id);
      CandidateValid(legal, old(counter), renamings);
      LegalIff(alphabetic, name);
      strToId := strToId[name := id];
      revStrToId := revStrToId[id := name];
    }

    /** Until the name is not a mapped identifier, tries the next one. */
    method Unique(legal: string) returns (id: string, ghost renamings: nat)
      modifies this`counter
      ensures id == Candidate(legal, old(counter), renamings) && id !in revStrToId && counter == old(counter) + renamings
      ensures renamings <= |revStrToId| && forall k :: 0 <= k < renamings ==> Candidate(legal, old(counter), k) in revStrToId
    {
      id := legal;
      renamings := 0;
      while id in revStrToId
        invariant id == Candidate(legal, old(counter), renamings) && counter == old(counter) + renamings
        invariant Candidates(legal, old(counter), renamings) <= revStrToId.Keys
        decreases revStrToId.Keys - Candidates(legal, old(counter), renamings)
      {
        NextCandidate(legal, old(counter), renamings);
        id := legal + "_" + Decimal(counter);
        counter := counter + 1;
        renamings := renamings + 1;
      }
      CandidatesAre(legal, old(counter), renamings);
      SubsetSize(Candidates(legal, old(counter), renamings), revStrToId.Keys);
    }

    method SourceName(id: string) returns (r: Option<string>)
      requires Valid()
      ensures r.Some? <==> exists n :: n in strToId && strToId[n] == id
      ensures r.Some? ==> r.value in strToId && strToId[r.value] == id
    {
      r := if id in revStrToId then Some(revStrToId[id]) else None;
    }
  }

  /** Not every name gets an identifier: one that begins with a letter outside of ASCII keeps it. */
  lemma NonAsciiLetterStays(alphabetic: char -> bool)
    requires Alphabet(alphabetic) && alphabetic('\U{E9}')
    ensures ReplaceIllegal(alphabetic, "\U{E9}a") == "\U{E9}a" && !IsIdentifier("\U{E9}a")
  {
    assert "\U{E9}a"[1..] == "a";
    assert Replaced("a") == "a";
  }
}
