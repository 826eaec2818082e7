/** Ticker symbols are upper-cased before they are used as keys (`str.upper`, ASCII letters only here). */
module Text {
  function UpperChar(c: char): char {
    if 'a' <= c <= 'z' then ((c as int) - 32) as char else c
  }

  function Upper(s: string): string {
    seq(|s|, i requires 0 <= i < |s| => UpperChar(s[i]))
  }

  /** Upper-casing twice changes nothing, so keys read back from a table stay valid keys. */
  lemma UpperIdempotent(s: string)
    ensures Upper(Upper(s)) == Upper(s)
  {
    assert forall i | 0 <= i < |s| :: Upper(Upper(s))[i] == Upper(s)[i];
  }

  function UpperAll(ts: set<string>): set<string> {
    set t | t in ts :: Upper(t)
  }
}
