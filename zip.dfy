/** The zip-code clean-up done before the address lookup on the customer input page. */
module ZipCode {

  /** `s.replace([c], "")`: every occurrence of `c` removed. */
  function Without(s: string, c: char): (r: string)
    ensures c !in r
    ensures |r| <= |s|
  {
    if s == [] then []
    else (if s[0] == c then [] else [s[0]]) + Without(s[1..], c)
  }

  /** The lookup key: hyphens removed first, then spaces. */
  function CleanZip(zipcode: string): string
  {
    Without(Without(zipcode, '-'), ' ')
  }

  lemma {:induction false} WithoutAppend(a: string, b: string, c: char)
    ensures Without(a + b, c) == Without(a, c) + Without(b, c)
  {
    if a == [] {
      assert a + b == b;
    } else {
      assert (a + b)[0] == a[0] && (a + b)[1..] == a[1..] + b;
      WithoutAppend(a[1..], b, c);
    }
  }

  lemma WithoutSingle(ch: char, c: char)
    ensures Without([ch], c) == if ch == c then [] else [ch]
  {
    assert [ch][1..] == [];
  }

  /** Removal distributes over concatenation, so relative order is kept. */
  lemma CleanZipAppend(a: string, b: string)
    ensures CleanZip(a + b) == CleanZip(a) + CleanZip(b)
  {
    WithoutAppend(a, b, '-');
    WithoutAppend(Without(a, '-'), Without(b, '-'), ' ');
  }

  /** A single character is dropped exactly when it is a hyphen or a space. */
  lemma CleanZipSingle(ch: char)
    ensures CleanZip([ch]) == if ch == '-' || ch == ' ' then [] else [ch]
  {
    WithoutSingle(ch, '-');
    WithoutSingle(ch, ' ');
    assert Without([], ' ') == [];
  }

  /** No hyphen and no space survive, and every other character keeps its count. */
  lemma {:induction false} CleanZipContents(s: string)
    ensures '-' !in CleanZip(s) && ' ' !in CleanZip(s)
    ensures forall ch :: ch != '-' && ch != ' ' ==> multiset(CleanZip(s))[ch] == multiset(s)[ch]
  {
    if s != [] {
      CleanZipContents(s[1..]);
      assert s == [s[0]] + s[1..];
      CleanZipAppend([s[0]], s[1..]);
      CleanZipSingle(s[0]);
      var rest := CleanZip(s[1..]);
      assert '-' !in rest && ' ' !in rest;
      if s[0] == '-' || s[0] == ' ' {
        assert CleanZip(s) == rest;
      } else {
        assert CleanZip(s) == [s[0]] + rest;
      }
      assert forall ch :: multiset(s)[ch] == multiset([s[0]])[ch] + multiset(s[1..])[ch];
    } else {
      assert CleanZip(s) == [];
    }
  }

  /** A string with no hyphen and no space is left as it is. */
  lemma {:induction false} CleanZipKeepsClean(s: string)
    requires '-' !in s && ' ' !in s
    ensures CleanZip(s) == s
  {
    if s != [] {
      assert s == [s[0]] + s[1..];
      CleanZipAppend([s[0]], s[1..]);
      CleanZipSingle(s[0]);
      CleanZipKeepsClean(s[1..]);
    } else {
      assert CleanZip(s) == [];
    }
  }

  /** Cleaning twice is the same as cleaning once. */
  lemma CleanZipIdempotent(s: string)
    ensures CleanZip(CleanZip(s)) == CleanZip(s)
  {
    CleanZipContents(s);
    CleanZipKeepsClean(CleanZip(s));
  }
}
