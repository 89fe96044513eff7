/** A small instance of the strconv functions the Modelfile codec needs: the laws it relies on can be met. */
module PlainStrconv {
  import opened Strings
  import opened Lines
  import opened Decimal
  import opened Modelfile
  import opened ModelfileItems

  function EscapeRune(c: char): string {
    if c == '\n' then "\\n" else if c == '\\' || c == '"' then ['\\', c] else [c]
  }

  function Escape(s: string): string {
    if s == [] then [] else EscapeRune(s[0]) + Escape(s[1..])
  }

  function Before(c: char, rest: Option<string>): Option<string> {
    match rest case None => None case Some(u) => Some([c] + u)
  }

  function Unescape(t: string): Option<string>
    decreases |t|
  {
    if t == [] then Some([])
    else if t[0] == '"' then None
    else if t[0] != '\\' then Before(t[0], Unescape(t[1..]))
    else if |t| < 2 then None
    else Before(if t[1] == 'n' then '\n' else t[1], Unescape(t[2..]))
  }

  function Quote(s: string): string {
    "\"" + Escape(s) + "\""
  }

  function Unquote(q: string): Option<string> {
    if |q| >= 2 && q[0] == '"' && q[|q| - 1] == '"' then Unescape(q[1..|q| - 1]) else None
  }

  lemma {:induction false} UnescapeEscape(s: string)
    ensures Unescape(Escape(s)) == Some(s) && OneLine(Escape(s))
  {
    if s != [] {
      UnescapeEscape(s[1..]);
      var e := EscapeRune(s[0]);
      assert Escape(s)[|e|..] == Escape(s[1..]);
      assert [s[0]] + s[1..] == s;
    }
  }

  lemma {:induction false} UnescapeShortens(t: string)
    ensures Unescape(t).Some? ==> |Unescape(t).value| <= |t|
    decreases |t|
  {
    if t != [] && t[0] == '\\' && |t| >= 2 {
      UnescapeShortens(t[2..]);
    } else if t != [] {
      UnescapeShortens(t[1..]);
    }
  }

  const PLAIN := Strconv((f: Float) => Itoa(f.bits),
                         s => match Atoi(s) case None => None case Some(n) => Some(Float(n)),
                         s => Quote(s), q => Unquote(q))

  lemma PlainIsLawful()
    ensures Lawful(PLAIN)
  {
    forall f ensures IsWord(PLAIN.formatFloat(f)) && !IsQuote(PLAIN.formatFloat(f)[0])
                     && PLAIN.parseFloat(PLAIN.formatFloat(f)).Some? {
      ItoaRunes(f.bits);
      AtoiItoa(f.bits);
    }
    forall s ensures IsQuoted(PLAIN.quote(s)) && PLAIN.unquote(PLAIN.quote(s)) == Some(s) {
      UnescapeEscape(s);
      assert Quote(s)[1..|Quote(s)| - 1] == Escape(s);
    }
    forall s ensures PLAIN.unquote(s).Some? ==> s != "" && IsQuote(s[0]) && |PLAIN.unquote(s).value| < |s| {
      if |s| >= 2 { UnescapeShortens(s[1..|s| - 1]); }
    }
  }
}
