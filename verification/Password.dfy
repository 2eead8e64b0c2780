/**
 The password generator: fixed numbers of characters from four charsets, filled up and shuffled, with the random
 source as a tape of numbers that may run out.
 */
module Password {
  import opened Wrappers
  import opened Collections

  const DEFAULT_LENGTH := 16
  const MIN_LENGTH := 12
  const MAX_LENGTH := 64
  const LOWER := "abcdefghijklmnopqrstuvwxyz"
  const UPPER := "ABCDEFGHIJKLMNOPQRSTUVWXYZ"
  const DIGITS := "0123456789"
  const SPECIAL := "._-,^"
  const MIN_OF_CLASS := 3

  function ClampedLength(length: int): (n: nat)
    ensures MIN_LENGTH <= n <= MAX_LENGTH
    ensures MIN_LENGTH <= length <= MAX_LENGTH ==> n == length
    ensures length == 0 ==> n == DEFAULT_LENGTH
    ensures length < MIN_LENGTH && length != 0 ==> n == MIN_LENGTH
    ensures length > MAX_LENGTH ==> n == MAX_LENGTH
  {
    if length == 0 then DEFAULT_LENGTH
    else if length < MIN_LENGTH then MIN_LENGTH
    else if length > MAX_LENGTH then MAX_LENGTH
    else length
  }

  // ---- the random source ----

  /** crypto/rand.Int on a tape: each draw uses up one number; an empty tape is a read error. */
  class RandomSource {
    var tape: seq<nat>

    constructor (tape: seq<nat>)
      ensures this.tape == tape
    {
      this.tape := tape;
    }

    method Int(max: nat) returns (r: Result<nat>)
      requires max > 0
      modifies this
      ensures old(tape) == [] ==> r.Err? && tape == []
      ensures old(tape) != [] ==> r == Ok(old(tape)[0] % max) && tape == old(tape)[1..]
    {
      if tape == [] {
        return Err("no randomness");
      }
      r := Ok(tape[0] % max);
      tape := tape[1..];
    }
  }

  // ---- shuffling ----

  function Swapped<T>(s: seq<T>, i: nat, j: nat): (r: seq<T>)
    requires i < |s| && j < |s|
    ensures |r| == |s|
  {
    s[i := s[j]][j := s[i]]
  }

  /** One choice for each position from the last down to position 1: choices[i - 1] is at most i. */
  predicate AreChoices(choices: seq<nat>)
  {
    forall i :: 0 <= i < |choices| ==> choices[i] <= i + 1
  }

  /** The Fisher-Yates shuffle of s, with choices[i - 1] drawn when position i is filled. */
  function Shuffled<T>(s: seq<T>, choices: seq<nat>): (r: seq<T>)
    requires AreChoices(choices) && |s| == |choices| + 1
    ensures |r| == |s|
    decreases |choices|
  {
    if choices == [] then s
    else
      var n := |choices|;
      var t := Swapped(s, n, choices[n - 1]);
      Shuffled(t[..n], choices[..n - 1]) + [t[n]]
  }

  lemma SwapPermutes<T>(s: seq<T>, i: nat, j: nat)
    requires i < |s| && j < |s|
    ensures multiset(Swapped(s, i, j)) == multiset(s)
  {
  }

  lemma {:induction false} ShufflePermutes<T>(s: seq<T>, choices: seq<nat>)
    requires AreChoices(choices) && |s| == |choices| + 1
    ensures multiset(Shuffled(s, choices)) == multiset(s)
    decreases |choices|
  {
    if choices == [] {
    } else {
      var n := |choices|;
      hide Swapped;
      var t := Swapped(s, n, choices[n - 1]);
      SwapPermutes(s, n, choices[n - 1]);
      ShufflePermutes(t[..n], choices[..n - 1]);
      assert Shuffled(s, choices) == Shuffled(t[..n], choices[..n - 1]) + [t[n]];
      assert t == t[..n] + [t[n]];
    }
  }

  lemma DistinctPositions<T>(s: seq<T>, t: seq<T>)
    requires Distinct(s) && multiset(t) == multiset(s)
    ensures Distinct(t) && |t| == |s|
  {
    assert |multiset(t)| == |t| && |multiset(s)| == |s|;
    forall i, j | 0 <= i < j < |t|
      ensures t[i] != t[j]
    {
      assert t[i] in multiset(s);
      var a :| 0 <= a < |s| && s[a] == t[i];
      OccursOnce(s, a);
      if t[i] == t[j] {
        OccursTwice(t, i, j);
      }
    }
  }

  lemma LastChoice<T>(s: seq<T>, i: nat)
    requires Distinct(s) && i < |s|
    ensures var n := |s| - 1; var t := Swapped(s, n, i); t[n] == s[i] && Distinct(t[..n])
  {
    var n := |s| - 1;
    SwapPermutes(s, n, i);
    DistinctPositions(s, Swapped(s, n, i));
  }

  lemma SameLastChoice<T>(s: seq<T>, a: seq<nat>, b: seq<nat>)
    requires AreChoices(a) && AreChoices(b) && a != [] && |s| == |a| + 1 == |b| + 1 && Distinct(s)
    requires Shuffled(s, a) == Shuffled(s, b)
    ensures var n := |a|; var t := Swapped(s, n, a[n - 1]);
            a[n - 1] == b[n - 1] && Shuffled(t[..n], a[..n - 1]) == Shuffled(t[..n], b[..n - 1])
  {
    hide Distinct;
    LastFilled(s, a);
    LastFilled(s, b);
    DistinctIndex(s, a[|a| - 1], b[|a| - 1]);
  }

  /** Different choices give different permutations of distinct elements. */
  lemma {:induction false} ShuffleIsInjective<T>(s: seq<T>, a: seq<nat>, b: seq<nat>)
    requires AreChoices(a) && AreChoices(b) && |s| == |a| + 1 == |b| + 1 && Distinct(s)
    requires Shuffled(s, a) == Shuffled(s, b)
    ensures a == b
    decreases |a|
  {
    if a == [] {
    } else {
      var n := |a|;
      SameLastChoice(s, a, b);
      LastChoice(s, a[n - 1]);
      hide Swapped, Distinct;
      var t := Swapped(s, n, a[n - 1]);
      ShuffleIsInjective(t[..n], a[..n - 1], b[..n - 1]);
      assert a == a[..n - 1] + [a[n - 1]] && b == b[..n - 1] + [b[n - 1]];
    }
  }

  lemma DistinctIndex<T>(s: seq<T>, i: nat, j: nat)
    requires Distinct(s) && i < |s| && j < |s| && s[i] == s[j]
    ensures i == j
  {
  }

  /** The last position is filled first and never touched again. */
  lemma LastFilled<T>(s: seq<T>, choices: seq<nat>)
    requires AreChoices(choices) && |s| == |choices| + 1 && choices != []
    ensures var n := |choices|; var t := Swapped(s, n, choices[n - 1]);
            Shuffled(s, choices)[n] == t[n] == s[choices[n - 1]]
            && Shuffled(s, choices)[..n] == Shuffled(t[..n], choices[..n - 1])
  {
  }

  lemma LastTaken<T>(s: seq<T>, i: nat)
    requires i < |s|
    ensures var n := |s| - 1; var t := Swapped(s, n, i);
            t[n] == s[i] && multiset(t[..n]) == multiset(s) - multiset{s[i]}
  {
    var n := |s| - 1;
    var t := Swapped(s, n, i);
    SwapPermutes(s, n, i);
    assert t == t[..n] + [t[n]];
  }

  /** Every rearrangement comes from some choices. */
  lemma {:induction false} ShuffleIsOnto<T>(s: seq<T>, target: seq<T>) returns (choices: seq<nat>)
    requires multiset(target) == multiset(s) && s != []
    ensures AreChoices(choices) && |s| == |choices| + 1 && Shuffled(s, choices) == target
    decreases |s|
  {
    assert |multiset(target)| == |target| && |multiset(s)| == |s|;
    var n := |s| - 1;
    if n == 0 {
      assert target == [target[0]] && s == [s[0]];
      assert target[0] in multiset(s);
      choices := [];
    } else {
      assert target[n] in multiset(s);
      var i: nat :| i < |s| && s[i] == target[n];
      LastTaken(s, i);
      var t := Swapped(s, n, i);
      assert target == target[..n] + [target[n]];
      assert multiset(target) == multiset(target[..n]) + multiset{target[n]};
      var rest := ShuffleIsOnto(t[..n], target[..n]);
      choices := rest + [i];
      ChoicesExtend(s, rest, i);
    }
  }

  lemma ChoicesExtend<T>(s: seq<T>, rest: seq<nat>, i: nat)
    requires AreChoices(rest) && |s| == |rest| + 2 && i < |s|
    ensures AreChoices(rest + [i])
    ensures Shuffled(s, rest + [i])
            == Shuffled(Swapped(s, |s| - 1, i)[..|s| - 1], rest) + [Swapped(s, |s| - 1, i)[|s| - 1]]
  {
    assert (rest + [i])[..|rest|] == rest;
  }

  /** Uniform choices make a uniform permutation: each permutation has exactly one sequence of choices. */
  lemma ShuffleIsBijection<T>(s: seq<T>, target: seq<T>)
    requires Distinct(s) && multiset(target) == multiset(s) && s != []
    ensures exists a :: AreChoices(a) && |s| == |a| + 1 && Shuffled(s, a) == target
                   && forall b :: AreChoices(b) && |s| == |b| + 1 && Shuffled(s, b) == target ==> b == a
  {
    var a := ShuffleIsOnto(s, target);
    forall b | AreChoices(b) && |s| == |b| + 1 && Shuffled(s, b) == target
      ensures b == a
    {
      ShuffleIsInjective(s, b, a);
    }
  }

  // ---- character classes ----

  /** How many characters of s are in the charset. */
  function Count(s: string, charset: string): (n: nat)
    ensures n <= |s|
  {
    if s == "" then 0
    else Count(s[..|s| - 1], charset) + if s[|s| - 1] in charset then 1 else 0
  }

  lemma {:induction false} CountOfSum(a: string, b: string, charset: string)
    ensures Count(a + b, charset) == Count(a, charset) + Count(b, charset)
  {
    if b == "" {
      assert a + b == a;
    } else {
      var n := |b| - 1;
      assert (a + b)[..|a + b| - 1] == a + b[..n];
      CountOfSum(a, b[..n], charset);
    }
  }

  lemma {:induction false} CountOfOwn(s: string, charset: string)
    requires forall c :: c in s ==> c in charset
    ensures Count(s, charset) == |s|
  {
    if s == "" {
    } else {
      CountOfOwn(s[..|s| - 1], charset);
    }
  }

  lemma {:induction false} CountIsOfMultiset(s: string, t: string, charset: string)
    requires multiset(s) == multiset(t)
    ensures Count(s, charset) == Count(t, charset)
    decreases |s|
  {
    assert |multiset(s)| == |s| && |multiset(t)| == |t|;
    if s == "" {
    } else {
      var n := |s| - 1;
      var c := s[n];
      assert c in multiset(t);
      var i :| 0 <= i < |t| && t[i] == c;
      var rest := t[..i] + t[i + 1..];
      assert s == s[..n] + [c];
      assert t == t[..i] + [c] + t[i + 1..];
      assert multiset(rest) == multiset(t) - multiset{c};
      assert multiset(s[..n]) == multiset(s) - multiset{c};
      CountIsOfMultiset(s[..n], rest, charset);
      CountOfSum(t[..i] + [c], t[i + 1..], charset);
      CountOfSum(t[..i], [c], charset);
      CountOfSum(t[..i], t[i + 1..], charset);
      CountOfOne(c, charset);
    }
  }

  lemma CountOfOne(c: char, charset: string)
    ensures Count([c], charset) == if c in charset then 1 else 0
  {
    assert [c][..0] == "";
  }

  function AllChars(): string { LOWER + UPPER + DIGITS + SPECIAL }

  /** What a generated password must look like. */
  ghost predicate IsStrong(password: string, length: nat)
  {
    |password| == length
    && (forall c :: c in password ==> c in AllChars())
    && Count(password, LOWER) >= MIN_OF_CLASS
    && Count(password, UPPER) >= MIN_OF_CLASS
    && Count(password, DIGITS) >= MIN_OF_CLASS
    && Count(password, SPECIAL) >= MIN_OF_CLASS
  }

  lemma PermutationStaysStrong(s: string, t: string, length: nat)
    requires multiset(s) == multiset(t) && IsStrong(s, length)
    ensures IsStrong(t, length)
  {
    assert |multiset(s)| == |s| && |multiset(t)| == |t|;
    forall c | c in t
      ensures c in AllChars()
    {
      assert c in multiset(s);
    }
    CountIsOfMultiset(s, t, LOWER);
    CountIsOfMultiset(s, t, UPPER);
    CountIsOfMultiset(s, t, DIGITS);
    CountIsOfMultiset(s, t, SPECIAL);
  }

  lemma PartsAreStrong(lower: string, upper: string, digits: string, special: string, rest: string)
    requires |lower| == |upper| == |digits| == |special| == MIN_OF_CLASS
    requires forall c :: c in lower ==> c in LOWER
    requires forall c :: c in upper ==> c in UPPER
    requires forall c :: c in digits ==> c in DIGITS
    requires forall c :: c in special ==> c in SPECIAL
    requires forall c :: c in rest ==> c in AllChars()
    ensures IsStrong(lower + upper + digits + special + rest, 4 * MIN_OF_CLASS + |rest|)
  {
    ClassOfParts(lower, upper, digits, special, rest, LOWER);
    ClassOfParts(lower, upper, digits, special, rest, UPPER);
    ClassOfParts(lower, upper, digits, special, rest, DIGITS);
    ClassOfParts(lower, upper, digits, special, rest, SPECIAL);
    CountOfOwn(lower, LOWER);
    CountOfOwn(upper, UPPER);
    CountOfOwn(digits, DIGITS);
    CountOfOwn(special, SPECIAL);
  }

  lemma ClassOfParts(a: string, b: string, c: string, d: string, e: string, charset: string)
    ensures Count(a + b + c + d + e, charset)
         == Count(a, charset) + Count(b, charset) + Count(c, charset) + Count(d, charset) + Count(e, charset)
  {
    CountOfSum(a, b, charset);
    CountOfSum(a + b, c, charset);
    CountOfSum(a + b + c, d, charset);
    CountOfSum(a + b + c + d, e, charset);
  }

  // ---- the generator ----

  /** The characters that a tape picks from a charset. */
  function Picked(tape: seq<nat>, charset: string): (s: string)
    requires charset != ""
    ensures |s| == |tape|
    ensures forall c :: c in s ==> c in charset
  {
    seq(|tape|, i requires 0 <= i < |tape| => charset[tape[i] % |charset|])
  }

  lemma PickedMore(tape: seq<nat>, i: nat, charset: string)
    requires charset != "" && i < |tape|
    ensures Picked(tape[..i + 1], charset) == Picked(tape[..i], charset) + [charset[tape[i] % |charset|]]
    ensures tape[i..][0] == tape[i] && tape[i..][1..] == tape[i + 1..]
  {
  }

  lemma OneMore(s: string, t: string, end: nat, front: string, more: string)
    requires end < |s| == |t| && s[..end] == t[..end] == front + more
    ensures s[..end + 1] == front + (more + [s[end]])
  {
  }

  /** Fills up to count positions from pos on with random characters of the charset. */
  method FillFromCharset(result: array<char>, pos: nat, charset: string, count: int, source: RandomSource)
      returns (end: nat, ok: bool)
    requires pos <= result.Length && charset != ""
    modifies result, source
    ensures pos <= end <= result.Length
    ensures ok && count < 0 ==> end == pos
    ensures ok && count >= 0 ==> end - pos == if count <= result.Length - pos then count else result.Length - pos
    ensures end - pos <= |old(source.tape)| && source.tape == old(source.tape)[end - pos..]
    ensures result[..end] == old(result[..pos]) + Picked(old(source.tape)[..end - pos], charset)
    ensures result[end..] == old(result[..])[end..]
    ensures !ok ==> source.tape == [] && end - pos < count && end < result.Length
  {
    hide Picked;
    end := pos;
    var i := 0;
    ghost var tape := source.tape;
    NothingPicked(charset);
    assert tape[..0] == [];
    while i < count && end < result.Length
      invariant 0 <= i && (i <= count || i == 0)
      invariant end == pos + i && end <= result.Length
      invariant i <= |tape| && source.tape == tape[i..]
      invariant result[..end] == old(result[..pos]) + Picked(tape[..i], charset)
      invariant result[end..] == old(result[..])[end..]
    {
      ghost var before := result[..];
      var idx := source.Int(|charset|);
      if idx.Err? {
        return end, false;
      }
      PickedMore(tape, i, charset);
      result[end] := charset[idx.value];
      OneMore(result[..], before, end, old(result[..pos]), Picked(tape[..i], charset));
      assert result[end + 1..] == before[end + 1..] == before[end..][1..];
      end := end + 1;
      i := i + 1;
    }
    ok := true;
  }

  lemma NothingPicked(charset: string)
    requires charset != ""
    ensures Picked([], charset) == ""
  {
  }

  /** The choices that a tape makes, from the last position down. */
  function ChoicesOf(tape: seq<nat>): (choices: seq<nat>)
    ensures AreChoices(choices) && |choices| == |tape|
  {
    seq(|tape|, i requires 0 <= i < |tape| => tape[|tape| - 1 - i] % (i + 2))
  }

  /** What is left to do once the positions from i + 1 on are filled. */
  ghost predicate HalfShuffled(was: string, now: string, tape: seq<nat>, i: nat)
    requires i < |was| == |now| == |tape| + 1
  {
    var done := |tape| - i;
    Shuffled(was, ChoicesOf(tape)) == Shuffled(now[..i + 1], ChoicesOf(tape[done..])) + now[i + 1..]
  }

  /** One iteration: position i is swapped with a random position up to i. */
  method ShuffleStep(data: array<char>, i: nat, source: RandomSource) returns (ok: bool)
    requires 0 < i < data.Length
    modifies data, source
    ensures ok <==> old(source.tape) != []
    ensures !ok ==> data[..] == old(data[..])
    ensures ok ==> source.tape == old(source.tape)[1..]
                   && data[..] == Swapped(old(data[..]), i, old(source.tape)[0] % (i + 1))
  {
    var j := source.Int(i + 1);
    if j.Err? {
      return false;
    }
    data[i], data[j.value] := data[j.value], data[i];
    ok := true;
  }

  method Shuffle(data: array<char>, source: RandomSource) returns (ok: bool)
    modifies data, source
    ensures ok <==> |old(source.tape)| >= data.Length - 1
    ensures multiset(data[..]) == multiset(old(data[..]))
    ensures ok && data.Length > 0 ==>
      data[..] == Shuffled(old(data[..]), ChoicesOf(old(source.tape)[..data.Length - 1]))
  {
    hide HalfShuffled, Swapped;
    if data.Length == 0 {
      return true;
    }
    ghost var was, tape := data[..], source.tape;
    ghost var enough := |tape| >= data.Length - 1;
    ghost var used := if enough then tape[..data.Length - 1] else tape;
    if enough {
      NothingShuffled(was, used);
    }
    var i := data.Length - 1;
    ghost var done := 0;
    while i > 0
      invariant 0 <= i && done + i == data.Length - 1 && done <= |tape| && source.tape == tape[done..]
      invariant multiset(data[..]) == multiset(was)
      invariant enough ==> HalfShuffled(was, data[..], used, i)
    {
      ghost var before := data[..];
      ok := ShuffleStep(data, i, source);
      if !ok {
        return false;
      }
      ghost var j := tape[done] % (i + 1);
      SwapPermutes(before, i, j);
      if enough {
        assert tape[done] == used[|used| - i];
        StepShuffles(was, before, used, i);
      }
      i, done := i - 1, done + 1;
    }
    AllShuffled(was, data[..], used);
    ok := true;
  }

  lemma NothingShuffled(was: string, tape: seq<nat>)
    requires |was| == |tape| + 1
    ensures HalfShuffled(was, was, tape, |tape|)
  {
    assert was[..|tape| + 1] == was && tape[0..] == tape;
  }

  lemma StepShuffles(was: string, now: string, tape: seq<nat>, i: nat)
    requires 0 < i < |was| == |now| == |tape| + 1 && HalfShuffled(was, now, tape, i)
    ensures HalfShuffled(was, Swapped(now, i, tape[|tape| - i] % (i + 1)), tape, i - 1)
  {
    hide Shuffled, ChoicesOf;
    var part := tape[|tape| - i..];
    OneShuffleStep(now, i, part);
    var t := Swapped(now, i, part[0] % (i + 1));
    assert part[1..] == tape[|tape| - (i - 1)..];
    assert t[i..] == [t[i]] + now[i + 1..];
  }

  lemma AllShuffled(was: string, now: string, tape: seq<nat>)
    requires |was| == |now| == |tape| + 1 && HalfShuffled(was, now, tape, 0)
    ensures now == Shuffled(was, ChoicesOf(tape))
  {
    assert tape[|tape|..] == [] && ChoicesOf([]) == [];
    assert Shuffled(now[..1], []) == now[..1];
    hide Shuffled, ChoicesOf;
    assert now == now[..1] + now[1..];
  }

  lemma OneShuffleStep(s: seq<char>, i: nat, tape: seq<nat>)
    requires 0 < i < |s| && |tape| == i
    ensures var t := Swapped(s, i, tape[0] % (i + 1));
            Shuffled(s[..i + 1], ChoicesOf(tape)) == Shuffled(t[..i], ChoicesOf(tape[1..])) + [t[i]]
  {
    var t := Swapped(s, i, tape[0] % (i + 1));
    assert ChoicesOf(tape)[..i - 1] == ChoicesOf(tape[1..]);
    assert Swapped(s[..i + 1], i, ChoicesOf(tape)[i - 1]) == t[..i + 1];
    assert t[..i + 1][..i] == t[..i];
  }

  /** The characters that a tape picks class by class. */
  function Classes(tape: seq<nat>): string
    requires |tape| >= 4 * MIN_OF_CLASS
  {
    Picked(tape[..3], LOWER) + Picked(tape[3..6], UPPER) + Picked(tape[6..9], DIGITS) + Picked(tape[9..12], SPECIAL)
  }

  /** All characters that a tape picks, before they are shuffled. */
  function Parts(tape: seq<nat>): string
    requires |tape| >= 4 * MIN_OF_CLASS
  {
    Classes(tape) + Picked(tape[12..], AllChars())
  }

  /** The password of length n that a tape yields. */
  function Generated(tape: seq<nat>, n: nat): string
    requires n >= 4 * MIN_OF_CLASS && |tape| == 2 * n - 1
  {
    Shuffled(Parts(tape[..n]), ChoicesOf(tape[n..]))
  }

  /** The first four calls that fill the password, class by class. */
  method FillClasses(result: array<char>, source: RandomSource) returns (ok: bool)
    requires result.Length >= 4 * MIN_OF_CLASS
    modifies result, source
    ensures ok <==> |old(source.tape)| >= 12
    ensures ok ==> source.tape == old(source.tape)[12..] && result[..12] == Classes(old(source.tape))
    ensures !ok ==> source.tape == []
  {
    hide Picked;
    ghost var tape := source.tape;
    var pos;
    pos, ok := FillFromCharset(result, 0, LOWER, MIN_OF_CLASS, source);
    if !ok { return; }
    TapeSplits(tape, 3, 3);
    pos, ok := FillFromCharset(result, pos, UPPER, MIN_OF_CLASS, source);
    if !ok { return; }
    TapeSplits(tape, 6, 3);
    pos, ok := FillFromCharset(result, pos, DIGITS, MIN_OF_CLASS, source);
    if !ok { return; }
    TapeSplits(tape, 9, 3);
    pos, ok := FillFromCharset(result, pos, SPECIAL, MIN_OF_CLASS, source);
  }

  /** All five calls. */
  method FillParts(result: array<char>, source: RandomSource) returns (ok: bool)
    requires result.Length >= 4 * MIN_OF_CLASS
    modifies result, source
    ensures ok <==> |old(source.tape)| >= result.Length
    ensures ok ==> source.tape == old(source.tape)[result.Length..]
                   && result[..] == Parts(old(source.tape)[..result.Length])
    ensures !ok ==> source.tape == []
  {
    hide Picked, Classes;
    ghost var tape := source.tape;
    var n := result.Length;
    ok := FillClasses(result, source);
    if !ok { return; }
    TapeSplits(tape, 12, n - 12);
    var pos;
    pos, ok := FillFromCharset(result, 12, AllChars(), n - 12, source);
    if !ok { return; }
    PartsOfTape(tape, n);
    assert result[..] == result[..n];
  }

  /** It succeeds exactly if the tape suffices; the password has the clamped length and enough of every class. */
  method GeneratePassword(length: int, source: RandomSource) returns (password: Result<string>)
    modifies source
    ensures password.Ok? <==> |old(source.tape)| >= 2 * ClampedLength(length) - 1
    ensures password.Ok? ==> IsStrong(password.value, ClampedLength(length))
    ensures password.Ok? ==>
      password.value == Generated(old(source.tape)[..2 * ClampedLength(length) - 1], ClampedLength(length))
  {
    hide IsStrong, Shuffled, ChoicesOf, Parts, Generated;
    var n := ClampedLength(length);
    ghost var tape := source.tape;
    var result := new char[n];
    var ok := FillParts(result, source);
    if !ok { return Err("no randomness"); }
    ok := Shuffle(result, source);
    if !ok { return Err("no randomness"); }
    GeneratedByTape(tape, n);
    return Ok(result[..]);
  }

  lemma TapeSplits(tape: seq<nat>, i: nat, k: nat)
    ensures i <= |tape| && k <= |tape[i..]| ==> tape[i..][..k] == tape[i..i + k] && tape[i..][k..] == tape[i + k..]
  {
  }

  lemma PartsOfTape(tape: seq<nat>, n: nat)
    requires 12 <= n <= |tape|
    ensures Parts(tape[..n]) == Classes(tape) + Picked(tape[12..n], AllChars())
  {
    assert tape[..n][..3] == tape[..3] && tape[..n][3..6] == tape[3..6] && tape[..n][6..9] == tape[6..9];
    assert tape[..n][9..12] == tape[9..12] && tape[..n][12..] == tape[12..n];
  }

  lemma GeneratedByTape(tape: seq<nat>, n: nat)
    requires 12 <= n && 2 * n - 1 <= |tape|
    ensures Generated(tape[..2 * n - 1], n) == Shuffled(Parts(tape[..n]), ChoicesOf(tape[n..][..n - 1]))
    ensures IsStrong(Generated(tape[..2 * n - 1], n), n)
  {
    var used := tape[..2 * n - 1];
    assert used[..n] == tape[..n] && used[n..] == tape[n..][..n - 1];
    GeneratedIsStrong(used, n);
  }

  lemma PartsAreFine(tape: seq<nat>)
    requires |tape| >= 4 * MIN_OF_CLASS
    ensures IsStrong(Parts(tape), |tape|) && |Parts(tape)| == |tape|
  {
    PartsAreStrong(Picked(tape[..3], LOWER), Picked(tape[3..6], UPPER), Picked(tape[6..9], DIGITS),
                   Picked(tape[9..12], SPECIAL), Picked(tape[12..], AllChars()));
  }

  lemma GeneratedIsStrong(tape: seq<nat>, n: nat)
    requires n >= 4 * MIN_OF_CLASS && |tape| == 2 * n - 1
    ensures IsStrong(Generated(tape, n), n)
  {
    hide IsStrong, Parts;
    PartsAreFine(tape[..n]);
    ShufflePermutes(Parts(tape[..n]), ChoicesOf(tape[n..]));
    PermutationStaysStrong(Parts(tape[..n]), Generated(tape, n), n);
  }

  // ---- every strong password can come out ----

  lemma {:induction false} CountOfForeign(s: string, charset: string)
    requires forall c :: c in s ==> c !in charset
    ensures Count(s, charset) == 0
  {
    if s != "" {
      CountOfForeign(s[..|s| - 1], charset);
    }
  }

  /** k characters of a charset can be taken out of a text that has as many. */
  lemma {:induction false} TakeOut(s: string, charset: string, k: nat) returns (taken: string, left: string)
    requires Count(s, charset) >= k
    ensures |taken| == k && (forall c :: c in taken ==> c in charset)
    ensures multiset(s) == multiset(taken) + multiset(left)
  {
    if k == 0 {
      taken, left := "", s;
    } else {
      var n := |s| - 1;
      assert s == s[..n] + [s[n]];
      if s[n] in charset {
        taken, left := TakeOut(s[..n], charset, k - 1);
        taken := taken + [s[n]];
      } else {
        taken, left := TakeOut(s[..n], charset, k);
        left := left + [s[n]];
      }
    }
  }

  /** Taking characters of one charset leaves as many of another one that shares none with it. */
  lemma TakingLeaves(s: string, taken: string, left: string, other: string)
    requires multiset(s) == multiset(taken) + multiset(left)
    requires forall c :: c in taken ==> c !in other
    ensures Count(left, other) == Count(s, other)
  {
    assert multiset(taken + left) == multiset(s);
    CountIsOfMultiset(s, taken + left, other);
    CountOfSum(taken, left, other);
    CountOfForeign(taken, other);
  }

  lemma {:induction false} TapeOfText(s: string, charset: string) returns (tape: seq<nat>)
    requires charset != "" && forall c :: c in s ==> c in charset
    ensures |tape| == |s| && Picked(tape, charset) == s
  {
    hide Picked;
    if s == "" {
      tape := [];
      NothingPicked(charset);
    } else {
      var n := |s| - 1;
      var front := TapeOfText(s[..n], charset);
      assert s[n] in charset;
      var i: nat :| i < |charset| && charset[i] == s[n];
      tape := front + [i];
      PickedMore(tape, n, charset);
      assert tape[..n] == front && tape[..n + 1] == tape && s == s[..n] + [s[n]];
    }
  }

  lemma TapeOfChoices(choices: seq<nat>) returns (tape: seq<nat>)
    requires AreChoices(choices)
    ensures |tape| == |choices| && ChoicesOf(tape) == choices
  {
    var n := |choices|;
    tape := seq(n, i requires 0 <= i < n => choices[n - 1 - i]);
    assert forall i :: 0 <= i < n ==> ChoicesOf(tape)[i] == choices[i];
  }

  ghost predicate IsLayout(lower: string, upper: string, digits: string, special: string, rest: string)
  {
    |lower| == |upper| == |digits| == |special| == MIN_OF_CLASS
    && (forall c :: c in lower ==> c in LOWER) && (forall c :: c in upper ==> c in UPPER)
    && (forall c :: c in digits ==> c in DIGITS) && (forall c :: c in special ==> c in SPECIAL)
    && (forall c :: c in rest ==> c in AllChars())
  }

  lemma LowerIsRange()
    ensures forall c :: c in LOWER ==> 'a' <= c <= 'z'
  {
  }

  lemma UpperIsRange()
    ensures forall c :: c in UPPER ==> 'A' <= c <= 'Z'
  {
  }

  lemma DigitsAreRange()
    ensures forall c :: c in DIGITS ==> '0' <= c <= '9'
  {
  }

  lemma SpecialIsApart()
    ensures forall c :: c in SPECIAL ==> !('a' <= c <= 'z') && !('A' <= c <= 'Z') && !('0' <= c <= '9')
  {
  }

  /** A strong password is a rearrangement of three characters of each class and some more. */
  lemma StrongHasLayout(p: string, n: nat)
      returns (lower: string, upper: string, digits: string, special: string, rest: string)
    requires IsStrong(p, n)
    ensures IsLayout(lower, upper, digits, special, rest)
    ensures multiset(lower + upper + digits + special + rest) == multiset(p)
  {
    hide IsLayout;
    LowerIsRange();
    UpperIsRange();
    DigitsAreRange();
    SpecialIsApart();
    var a: string, b: string, c: string;
    lower, a := TakeOut(p, LOWER, MIN_OF_CLASS);
    TakingLeaves(p, lower, a, UPPER);
    TakingLeaves(p, lower, a, DIGITS);
    TakingLeaves(p, lower, a, SPECIAL);
    upper, b := TakeOut(a, UPPER, MIN_OF_CLASS);
    TakingLeaves(a, upper, b, DIGITS);
    TakingLeaves(a, upper, b, SPECIAL);
    digits, c := TakeOut(b, DIGITS, MIN_OF_CLASS);
    TakingLeaves(b, digits, c, SPECIAL);
    special, rest := TakeOut(c, SPECIAL, MIN_OF_CLASS);
    RestIsFine(p, lower, upper, digits, special, rest);
  }

  lemma RestIsFine(p: string, lower: string, upper: string, digits: string, special: string, rest: string)
    requires |lower| == |upper| == |digits| == |special| == MIN_OF_CLASS
    requires (forall c :: c in lower ==> c in LOWER) && (forall c :: c in upper ==> c in UPPER)
    requires (forall c :: c in digits ==> c in DIGITS) && (forall c :: c in special ==> c in SPECIAL)
    requires forall c :: c in p ==> c in AllChars()
    requires multiset(p) == multiset(lower)
             + (multiset(upper) + (multiset(digits) + (multiset(special) + multiset(rest))))
    ensures IsLayout(lower, upper, digits, special, rest)
    ensures multiset(lower + upper + digits + special + rest) == multiset(p)
  {
    forall c | c in rest
      ensures c in AllChars()
    {
      assert c in multiset(p);
    }
  }

  /** The tape that picks a given layout and then makes given choices. */
  lemma TapeOfLayout(lower: string, upper: string, digits: string, special: string, rest: string, choices: seq<nat>)
      returns (tape: seq<nat>)
    requires IsLayout(lower, upper, digits, special, rest) && AreChoices(choices) && |choices| == 11 + |rest|
    ensures |tape| == 2 * (12 + |rest|) - 1
    ensures Generated(tape, 12 + |rest|) == Shuffled(lower + upper + digits + special + rest, choices)
  {
    var a := TapeOfText(lower, LOWER);
    var b := TapeOfText(upper, UPPER);
    var c := TapeOfText(digits, DIGITS);
    var d := TapeOfText(special, SPECIAL);
    var e := TapeOfText(rest, AllChars());
    var f := TapeOfChoices(choices);
    hide Picked, ChoicesOf, Shuffled, IsLayout;
    var picks := a + b + c + d + e;
    tape := picks + f;
    assert tape[..12 + |rest|] == picks && tape[12 + |rest|..] == f;
    assert picks[..3] == a && picks[3..6] == b && picks[6..9] == c && picks[9..12] == d && picks[12..] == e;
  }

  /** A text can be generated exactly if it is strong: nothing else comes out, and nothing strong is missing. */
  lemma GeneratedIffStrong(p: string, n: nat)
    requires n >= 4 * MIN_OF_CLASS
    ensures IsStrong(p, n) <==> exists tape: seq<nat> :: |tape| == 2 * n - 1 && Generated(tape, n) == p
  {
    hide IsStrong, Generated;
    forall tape: seq<nat> | |tape| == 2 * n - 1 && Generated(tape, n) == p
      ensures IsStrong(p, n)
    {
      GeneratedIsStrong(tape, n);
    }
    if IsStrong(p, n) {
      var _ := StrongIsGenerated(p, n);
    }
  }

  lemma StrongIsGenerated(p: string, n: nat) returns (tape: seq<nat>)
    requires n >= 4 * MIN_OF_CLASS && IsStrong(p, n)
    ensures |tape| == 2 * n - 1 && Generated(tape, n) == p
  {
    assert |multiset(p)| == n;
    var lower, upper, digits, special, rest := StrongHasLayout(p, n);
    var s := lower + upper + digits + special + rest;
    assert |multiset(s)| == |s| && |s| == 12 + |rest|;
    var choices := ShuffleIsOnto(s, p);
    tape := TapeOfLayout(lower, upper, digits, special, rest, choices);
  }
}
