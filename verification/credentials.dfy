/** What the login and change-password screens share: the mock password and
    the six-character captcha drawn from digits and capital letters. */
module Credentials {

  /** The one password every account is checked against. */
  const MockPassword: string := "sadmin"

  const Alphabet: string := "0123456789ABCDEFGHIJKLMNOPQRSTUVWXYZ"
  const CaptchaLength: nat := 6

  /** A value of `Math.random()`. */
  predicate IsDraw(r: real) {
    0.0 <= r < 1.0
  }

  predicate AreDraws(draws: seq<real>) {
    forall k :: 0 <= k < |draws| ==> IsDraw(draws[k])
  }

  /** The alphabet's length, 36. */
  const AlphabetSize: nat := 36

  lemma AlphabetLength()
    ensures |Alphabet| == AlphabetSize
  {
  }

  /** `Math.floor(draw * chars.length)`: a position inside the alphabet. */
  function PickIndex(draw: real): (k: nat)
    requires IsDraw(draw)
    ensures k < AlphabetSize
  {
    assert draw * 36.0 < 36.0;
    (draw * 36.0).Floor
  }

  /** `chars.charAt(Math.floor(draw * chars.length))`. */
  function Pick(draw: real): (c: char)
    requires IsDraw(draw)
    ensures c in Alphabet
  {
    AlphabetLength();
    Alphabet[PickIndex(draw)]
  }

  /** A well-formed captcha: six characters from the alphabet. */
  predicate IsCaptcha(s: string) {
    |s| == CaptchaLength && forall k :: 0 <= k < |s| ==> s[k] in Alphabet
  }

  /** The loop appending one picked character per draw. */
  function PickAll(draws: seq<real>): (s: string)
    requires AreDraws(draws)
    ensures |s| == |draws|
    ensures forall k :: 0 <= k < |s| ==> s[k] == Pick(draws[k])
  {
    if draws == [] then "" else PickAll(draws[..|draws| - 1]) + [Pick(draws[|draws| - 1])]
  }

  /** `generateCaptcha` with its six random draws passed in. */
  function Generate(draws: seq<real>): (s: string)
    requires |draws| == CaptchaLength && AreDraws(draws)
    ensures IsCaptcha(s)
  {
    PickAll(draws)
  }

  /** The draw that picks the alphabet's `i`-th character. */
  function DrawFor(i: nat): (r: real)
    requires i < |Alphabet|
    ensures IsDraw(r) && Pick(r) == Alphabet[i]
  {
    AlphabetLength();
    var r := i as real / 36.0;
    assert r * 36.0 == i as real;
    assert (i as real).Floor == i;
    assert PickIndex(r) == i;
    r
  }

  function IndexIn(c: char, s: string): (i: nat)
    requires c in s
    ensures i < |s| && s[i] == c
  {
    if s[0] == c then 0 else 1 + IndexIn(c, s[1..])
  }

  /** Every well-formed captcha is produced by some six draws. */
  lemma EveryCaptchaReachable(s: string)
    requires IsCaptcha(s)
    ensures exists draws :: |draws| == CaptchaLength && AreDraws(draws) && Generate(draws) == s
  {
    var draws := seq(|s|, k requires 0 <= k < |s| => DrawFor(IndexIn(s[k], Alphabet)));
    assert AreDraws(draws);
    assert Generate(draws) == s;
  }
}
