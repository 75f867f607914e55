/** The string operations the decoders and filters rely on. */
module Text {

  /** The white space that String.prototype.trim removes. */
  predicate IsSpace(c: char) {
    || '\t' <= c <= '\r' || c == ' ' || c == '\U{00A0}' || c == '\U{1680}'
    || '\U{2000}' <= c <= '\U{200A}' || c == '\U{2028}' || c == '\U{2029}'
    || c == '\U{202F}' || c == '\U{205F}' || c == '\U{3000}' || c == '\U{FEFF}'
  }

  function TrimStart(s: string): string {
    if s != [] && IsSpace(s[0]) then TrimStart(s[1..]) else s
  }

  function TrimEnd(s: string): string {
    if s != [] && IsSpace(s[|s| - 1]) then TrimEnd(s[..|s| - 1]) else s
  }

  function Trim(s: string): string {
    TrimEnd(TrimStart(s))
  }

  /** No white space at either end. */
  predicate Trimmed(s: string) {
    s != [] ==> !IsSpace(s[0]) && !IsSpace(s[|s| - 1])
  }

  lemma {:induction false} TrimEndKeepsStart(s: string)
    ensures TrimEnd(s) <= s
    ensures var r := TrimEnd(s); r != [] ==> !IsSpace(r[|r| - 1])
  {
    if s == [] || !IsSpace(s[|s| - 1]) {
    } else {
      TrimEndKeepsStart(s[..|s| - 1]);
    }
  }

  lemma {:induction false} TrimStartDone(s: string)
    ensures var r := TrimStart(s); r != [] ==> !IsSpace(r[0])
  {
    if s == [] || !IsSpace(s[0]) {
    } else {
      TrimStartDone(s[1..]);
    }
  }

  /** Trimming gives a trimmed string and leaves exactly the trimmed strings alone. */
  lemma TrimIsTrimmed(s: string)
    ensures Trimmed(Trim(s))
    ensures Trim(s) == s <==> Trimmed(s)
  {
    TrimStartDone(s);
    TrimEndKeepsStart(TrimStart(s));
  }

  /** Nothing but a trimmed string's own characters: trimming never adds any. */
  lemma {:induction false} TrimStartKeeps(s: string, c: char)
    requires c in TrimStart(s)
    ensures c in s
  {
    if s == [] || !IsSpace(s[0]) {
    } else {
      TrimStartKeeps(s[1..], c);
    }
  }

  lemma TrimKeeps(s: string, c: char)
    requires c in Trim(s)
    ensures c in s
  {
    TrimEndKeepsStart(TrimStart(s));
    TrimStartKeeps(s, c);
  }

  predicate AllSpace(s: string) {
    forall c :: c in s ==> IsSpace(c)
  }

  lemma {:induction false} TrimEndRemovesSpace(s: string)
    ensures TrimEnd(s) <= s && AllSpace(s[|TrimEnd(s)|..])
  {
    if s == [] || !IsSpace(s[|s| - 1]) {
    } else {
      TrimEndRemovesSpace(s[..|s| - 1]);
      assert s[|TrimEnd(s)|..] == s[..|s| - 1][|TrimEnd(s)|..] + [s[|s| - 1]];
    }
  }

  lemma {:induction false} TrimStartRemovesSpace(s: string)
    ensures exists before :: s == before + TrimStart(s) && AllSpace(before)
  {
    if s == [] || !IsSpace(s[0]) {
      assert s == [] + TrimStart(s);
    } else {
      TrimStartRemovesSpace(s[1..]);
      var before :| s[1..] == before + TrimStart(s[1..]) && AllSpace(before);
      assert s == ([s[0]] + before) + TrimStart(s);
    }
  }

  /** Trimming removes white space from both ends and nothing else. */
  lemma TrimRemovesSpace(s: string)
    ensures exists before, after :: s == before + Trim(s) + after && AllSpace(before) && AllSpace(after)
  {
    TrimStartRemovesSpace(s);
    var before :| s == before + TrimStart(s) && AllSpace(before);
    TrimEndRemovesSpace(TrimStart(s));
    var after := TrimStart(s)[|Trim(s)|..];
    assert s == before + Trim(s) + after;
  }
}
