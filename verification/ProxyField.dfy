/** The Forwarded field that the hw5 proxy adds to a request (section 4 of RFC 7239). */
module ProxyField {
  import opened Text
  import opened HttpText
  import opened Proxy

  // ---- reading the parameters -------------------------------------------------------

  /** The pieces of a parameter list, cut at ';', each cut at its first '='. */
  function ForwardedPairs(text: string): seq<(string, string)>
    decreases |text|
  {
    match Strtok(text, ';').0
    case None => []
    case Some(piece) => [PairOf(OrEmpty(Word1(piece)))] + ForwardedPairs(Strtok(text, ';').1)
  }

  function PairOf(word: string): (string, string) {
    (OrEmpty(Strtok(word, '=').0), Strtok(word, '=').1)
  }

  /** An address is a word that no separator of the field cuts. */
  predicate Address(a: string) {
    IsWord(a) && NulFreeText(a) && Free(a, ';') && Free(a, '=')
  }

  predicate Addresses(env: Env) { Address(env.clientIp) && Address(env.proxyIp) }

  lemma {:induction false} AppendFree(a: string, b: string, d: char)
    requires Free(a, d) && Free(b, d)
    ensures Free(a + b, d)
  {
    assert forall c :: c in a + b ==> c in a || c in b;
  }

  lemma PairReads(key: string, value: string)
    requires IsField(key, '=') && Free(value, '=') && IsWord(key + "=" + value)
    ensures Word1(" " + (key + "=" + value)) == Some(key + "=" + value)
    ensures PairOf(key + "=" + value) == (key, value)
  {
    ScanSpaced(' ', key + "=" + value);
    ScanOneWord(key + "=" + value);
    assert key + "=" + value == key + ['='] + value;
    StrtokJoin(key, '=', value);
  }

  /** One piece and the rest behind its ';'. */
  lemma PiecesRead(key: string, value: string, rest: string)
    requires IsField(key, '=') && Free(value, '=') && IsWord(key + "=" + value)
    requires Free(key + "=" + value, ';')
    ensures ForwardedPairs(" " + (key + "=" + value) + ";" + rest) == [(key, value)] + ForwardedPairs(rest)
    ensures ForwardedPairs(" " + (key + "=" + value)) == [(key, value)]
  {
    var piece := " " + (key + "=" + value);
    assert Free(" ", ';');
    AppendFree(" ", key + "=" + value, ';');
    assert piece + ";" + rest == piece + [';'] + rest;
    StrtokJoin(piece, ';', rest);
    PairReads(key, value);
    assert Strtok("", ';').0 == None && ForwardedPairs("") == [];
  }

  lemma WordOfPair(key: string, value: string)
    requires IsWord(key) && IsWord(value) && Free(key, ';') && Free(value, ';')
    ensures IsWord(key + "=" + value) && Free(key + "=" + value, ';')
  {
    assert Free("=", ';');
    AppendFree(key, "=", ';');
    AppendFree(key + "=", value, ';');
  }

  const FOR := "for"
  const PROTO := "proto"
  const BY := "by"

  lemma FieldKeys()
    ensures IsWord(FOR) && IsWord(PROTO) && IsWord(BY) && IsWord("http") && IsWord("Forwarded:")
    ensures Free(FOR, ';') && Free(PROTO, ';') && Free(BY, ';') && Free("http", ';')
    ensures IsField(FOR, '=') && IsField(PROTO, '=') && IsField(BY, '=') && Free("http", '=')
  {
  }

  lemma FieldSplit(env: Env)
    ensures ForwardedField(env)
            == "Forwarded:" + [' ']
               + ((FOR + "=" + env.clientIp) + ";" + (" " + (PROTO + "=" + "http") + ";" + (" " + (BY + "=" + env.proxyIp))))
  {
  }

  // ---- the field the proxy adds -----------------------------------------------------

  /** The field reads as a Forwarded field with the client's address for "for", the
      protocol, and the proxy's address for "by" (section 4 of RFC 7239). */
  lemma FieldReads(env: Env)
    requires Addresses(env)
    ensures Word1(ForwardedField(env)) == Some("Forwarded:")
    ensures ForwardedPairs(ScanWord(ForwardedField(env)).1)
            == [("for", env.clientIp), ("proto", "http"), ("by", env.proxyIp)]
  {
    FieldKeys();
    FieldSplit(env);
    var last := " " + (BY + "=" + env.proxyIp);
    var middle := " " + (PROTO + "=" + "http") + ";" + last;
    var text := (FOR + "=" + env.clientIp) + ";" + middle;
    ScanFirstWord("Forwarded:", ' ', text);
    assert [' '] + text == " " + (FOR + "=" + env.clientIp) + ";" + middle;
    WordOfPair(FOR, env.clientIp);
    WordOfPair(PROTO, "http");
    WordOfPair(BY, env.proxyIp);
    PiecesRead(FOR, env.clientIp, middle);
    PiecesRead(PROTO, "http", last);
    PiecesRead(BY, env.proxyIp, "");
  }

  predicate Plain(s: string) { forall i :: 0 <= i < |s| ==> s[i] != '\r' && s[i] != '\n' && s[i] != '\0' }

  lemma PlainAppend(a: string, b: string)
    requires Plain(a) && Plain(b)
    ensures Plain(a + b)
  {
  }

  lemma PlainAddress(a: string)
    requires Address(a)
    ensures Plain(a)
  {
    assert forall i :: 0 <= i < |a| ==> !IsSpace(a[i]);
  }

  lemma PlainLiterals()
    ensures Plain("Forwarded: for=") && Plain("; proto=http; by=")
  {
  }

  lemma FieldIsLine(env: Env)
    requires Addresses(env)
    ensures OneLine(ForwardedField(env))
  {
    PlainLiterals();
    PlainAddress(env.clientIp);
    PlainAddress(env.proxyIp);
    PlainAppend("Forwarded: for=", env.clientIp);
    PlainAppend("Forwarded: for=" + env.clientIp, "; proto=http; by=");
    PlainAppend("Forwarded: for=" + env.clientIp + "; proto=http; by=", env.proxyIp);
    assert ForwardedField(env) == "Forwarded: for=" + env.clientIp + "; proto=http; by=" + env.proxyIp;
  }

  /** One line, named Forwarded, with the client's address for "for", the protocol http, and
      the proxy's address for "by", in this order. */
  predicate AddedFor(env: Env, field: string) {
    && Named(field) && Word1(field) == Some("Forwarded:")
    && ForwardedPairs(ScanWord(field).1) == [("for", env.clientIp), ("proto", "http"), ("by", env.proxyIp)]
  }

  lemma FieldIsAdded(env: Env)
    requires Addresses(env)
    ensures AddedFor(env, ForwardedField(env))
  {
    FieldReads(env);
    FieldIsLine(env);
  }
}
