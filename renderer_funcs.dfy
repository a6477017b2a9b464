/** `SafeComputerName` from renderer/template_funcs.go: makes a name usable
    as a Windows computer name by deleting the characters Windows refuses
    and keeping at most 15 of the rest. */
module RendererFuncs {
  import opened Text

  /** The characters deleted, in the order the loop deletes them. */
  const InvalidChars: seq<char> := ['\\', '/', ':', '*', '?', '"', '<', '>', '|']

  /** The longest name kept. */
  const MaxLength := 15

  /** What an empty name becomes. */
  const DefaultName := "computername"

  /** `name` after the loop's first `n` turns. */
  function Stripped(name: string, n: nat): string
    requires n <= |InvalidChars|
  {
    if n == 0 then name else RemoveAll(Stripped(name, n - 1), InvalidChars[n - 1])
  }

  /** At most the first `MaxLength` characters of `s`. */
  function Clamp(s: string): string
  {
    s[..if |s| > MaxLength then MaxLength else |s|]
  }

  /** What `SafeComputerName` returns, as written. */
  function SafeName(name: string): string
  {
    if |name| <= 0 then DefaultName else Clamp(Stripped(name, |InvalidChars|))
  }

  /** `SafeComputerName`, with its loop over the invalid characters. */
  method SafeComputerName(name: string) returns (r: string)
    ensures r == SafeName(name)
  {
    if |name| <= 0 {
      return DefaultName;
    }
    var n := name;
    for k := 0 to |InvalidChars|
      invariant n == Stripped(name, k)
    {
      n := RemoveAll(n, InvalidChars[k]);
    }
    var i := |n|;
    if i > MaxLength {
      i := MaxLength;
    }
    return n[0..i];
  }

  /** Reference definition: the characters of `s` that are not invalid, in
      order. */
  function Valid(s: string): (r: string)
    ensures forall c :: c in r ==> c !in InvalidChars
  {
    if s == [] then []
    else (if s[0] in InvalidChars then [] else [s[0]]) + Valid(s[1..])
  }

  /** `c` is one of the first `n` invalid characters. */
  predicate DeletedBy(c: char, n: nat)
    requires n <= |InvalidChars|
  {
    n > 0 && (InvalidChars[n - 1] == c || DeletedBy(c, n - 1))
  }

  lemma {:induction false} DeletedByAll(c: char, n: nat)
    requires n <= |InvalidChars|
    ensures DeletedBy(c, n) <==> exists i :: 0 <= i < n && InvalidChars[i] == c
    decreases n
  {
    if n > 0 {
      DeletedByAll(c, n - 1);
    }
  }

  /** The loop's first `n` turns act on a name character by character. */
  lemma {:induction false} StrippedCons(c: char, t: string, n: nat)
    requires n <= |InvalidChars|
    ensures Stripped([c] + t, n) == (if DeletedBy(c, n) then [] else [c]) + Stripped(t, n)
    decreases n
  {
    hide RemoveAll;
    if n > 0 {
      StrippedCons(c, t, n - 1);
      var d := InvalidChars[n - 1];
      var rest := Stripped(t, n - 1);
      assert DeletedBy(c, n) == (d == c || DeletedBy(c, n - 1));
      if DeletedBy(c, n - 1) {
        assert Stripped([c] + t, n - 1) == rest;
      } else {
        assert Stripped([c] + t, n - 1) == [c] + rest;
        RemoveAllCons(c, rest, d);
      }
    }
  }

  /** Deleting the nine characters one after the other is the same as
      keeping the valid characters. */
  lemma {:induction false} StrippedIsValid(name: string)
    ensures Stripped(name, |InvalidChars|) == Valid(name)
    decreases |name|
  {
    if name != [] {
      StrippedIsValid(name[1..]);
      StrippedCons(name[0], name[1..], |InvalidChars|);
      DeletedByAll(name[0], |InvalidChars|);
      assert [name[0]] + name[1..] == name;
    } else {
      StrippedOfEmpty(|InvalidChars|);
    }
  }

  lemma {:induction false} StrippedOfEmpty(n: nat)
    requires n <= |InvalidChars|
    ensures Stripped([], n) == []
    decreases n
  {
    if n > 0 {
      StrippedOfEmpty(n - 1);
    }
  }

  /** A name with no invalid characters is kept whole by the loop. */
  lemma {:induction false} ValidOfValid(s: string)
    requires forall c :: c in s ==> c !in InvalidChars
    ensures Valid(s) == s
    decreases |s|
  {
    if s != [] {
      assert forall c :: c in s[1..] ==> c in s;
      ValidOfValid(s[1..]);
      assert [s[0]] + s[1..] == s;
    }
  }

  /** The result: "computername" for the empty name; otherwise the first
      (up to) 15 valid characters of the name, so at most 15 characters,
      none of them invalid. */
  lemma SafeNameIsValidPrefix(name: string)
    ensures name == [] ==> SafeName(name) == DefaultName
    ensures name != [] ==> HasPrefix(Valid(name), SafeName(name))
    ensures name != [] ==> |SafeName(name)| == if |Valid(name)| > MaxLength then MaxLength else |Valid(name)|
    ensures |SafeName(name)| <= MaxLength
    ensures forall c :: c in SafeName(name) ==> c !in InvalidChars
  {
    StrippedIsValid(name);
    if name != [] {
      var v := Valid(name);
      assert forall c :: c in Clamp(v) ==> c in v;
    }
  }

  /** A name of at most 15 characters, none invalid, is returned as it is. */
  lemma SafeNameKeepsValidName(name: string)
    requires name != [] && |name| <= MaxLength
    requires forall c :: c in name ==> c !in InvalidChars
    ensures SafeName(name) == name
  {
    StrippedIsValid(name);
    ValidOfValid(name);
  }

  /** A non-empty result is a fixed point: applying `SafeComputerName` to
      its own result changes nothing. */
  lemma SafeNameIdempotent(name: string)
    requires SafeName(name) != []
    ensures SafeName(SafeName(name)) == SafeName(name)
  {
    SafeNameIsValidPrefix(name);
    SafeNameKeepsValidName(SafeName(name));
  }

  /** The emptiness check comes before the deletion: a non-empty name made
      only of invalid characters gives "", not "computername". */
  lemma {:induction false} SafeNameOfOnlyInvalid(name: string)
    requires name != []
    requires forall c :: c in name ==> c in InvalidChars
    ensures SafeName(name) == []
  {
    StrippedIsValid(name);
    OnlyInvalidHasNoValid(name);
  }

  lemma {:induction false} OnlyInvalidHasNoValid(s: string)
    requires forall c :: c in s ==> c in InvalidChars
    ensures Valid(s) == []
    decreases |s|
  {
    if s != [] {
      assert forall c :: c in s[1..] ==> c in s;
      OnlyInvalidHasNoValid(s[1..]);
    }
  }

  /** The name as the emptiness check was evidently meant: a result that
      would be empty after the deletion becomes "computername" too. */
  function SafeNameCorrected(name: string): string
  {
    var s := Clamp(Valid(name));
    if s == [] then DefaultName else s
  }

  lemma DefaultNameIsValid()
    ensures DefaultName != [] && |DefaultName| <= MaxLength
    ensures forall c :: c in DefaultName ==> c !in InvalidChars
  {
  }

  /** The corrected name is never empty, has at most 15 characters, none of
      them invalid, and agrees with `SafeName` whenever that is non-empty. */
  lemma SafeNameCorrectedIsComputerName(name: string)
    ensures SafeNameCorrected(name) != []
    ensures |SafeNameCorrected(name)| <= MaxLength
    ensures forall c :: c in SafeNameCorrected(name) ==> c !in InvalidChars
    ensures SafeName(name) != [] ==> SafeNameCorrected(name) == SafeName(name)
  {
    DefaultNameIsValid();
    StrippedIsValid(name);
    var v := Valid(name);
    assert forall c :: c in Clamp(v) ==> c in v;
    hide DefaultName;
    if name == [] {
      assert v == [];
    }
  }
}
