/**
 * A bearer token from the client's outgoing metadata to the server's extraction.
 */
module BearerToken {
  import opened Wrappers

  const HEADER := "authorization"
  const SCHEME := "Bearer "

  /** Request metadata, a map the holder may change. */
  class Metadata {
    var entries: map<string, seq<string>>

    constructor (entries: map<string, seq<string>>)
      ensures this.entries == entries
    {
      this.entries := entries;
    }

    method Copy() returns (md: Metadata)
      ensures fresh(md) && md.entries == entries
    {
      md := new Metadata(entries);
    }

    method Set(key: string, value: string)
      modifies this
      ensures entries == old(entries)[key := [value]]
    {
      entries := entries[key := [value]];
    }
  }

  /** A client context: the token stored in it, and its outgoing metadata. */
  datatype Context = Context(token: Option<string>, outgoing: Metadata?)

  /** What the token source does: there is none, it fails, or it returns a context. */
  datatype Source = NoSource | SourceFails | Gives(ctx: Context)

  datatype Injection = Sent(ctx: Context) | Unauthenticated

  /** The metadata of a context as a value; no metadata is the empty map. */
  function EntriesOf(md: Metadata?): map<string, seq<string>>
    reads md
  {
    if md == null then map[] else md.entries
  }

  /** Injection writes only to metadata it made itself: nothing the caller holds changes, as it may modify nothing. */
  method InjectToken(ctx: Context, source: Source) returns (r: Injection)
    ensures source.NoSource? ==> r == Sent(ctx)
    ensures source.Gives? && r.Sent? ==> r.ctx.token == source.ctx.token
    ensures r.Unauthenticated? <==>
        source.SourceFails? || (source.Gives? && (source.ctx.token == None || source.ctx.token == Some("")))
    ensures source.Gives? && r.Sent? ==>
              && r.ctx.outgoing != null && fresh(r.ctx.outgoing)
              && r.ctx.outgoing.entries ==
                 EntriesOf(source.ctx.outgoing)["authorization" := ["Bearer " + source.ctx.token.value]]
  {
    match source
    case NoSource => return Sent(ctx);
    case SourceFails => return Unauthenticated;
    case Gives(given) =>
      if given.token == None || given.token == Some("") {
        return Unauthenticated;
      }
      var md;
      if given.outgoing == null {
        md := new Metadata(map[]);
      } else {
        md := given.outgoing.Copy();
      }
      md.Set(HEADER, SCHEME + given.token.value);
      return Sent(given.(outgoing := md));
  }

  // ----- Extraction -----

  datatype Extraction = Token(token: string) | MissingMetadata | MissingToken | EmptyToken

  function LowerChar(c: char): char {
    if 'A' <= c <= 'Z' then (c as int - 'A' as int + 'a' as int) as char else c
  }

  /** The value starts with the scheme and a space, in any case. */
  predicate HasScheme(value: string) {
    |value| >= 7 && forall i :: 0 <= i < 7 ==> LowerChar(value[i]) == "bearer "[i]
  }

  function ExtractBearerToken(incoming: Option<map<string, seq<string>>>): Extraction {
    match incoming
    case None => MissingMetadata
    case Some(md) =>
      if HEADER !in md || md[HEADER] == [] || md[HEADER][0] == "" then MissingToken
      else
        var value := md[HEADER][0];
        var token := if HasScheme(value) then value[7..] else value;
        if token == "" then EmptyToken else Token(token)
  }

  /**
   * A token comes out exactly of a non-empty value that is the token itself without the scheme, or the token after
   * the scheme in any case.
   */
  lemma ExtractsIff(md: map<string, seq<string>>, t: string)
    ensures ExtractBearerToken(Some(md)) == Token(t) <==>
              && t != "" && "authorization" in md && md["authorization"] != []
              && ((md["authorization"][0] == t && !HasScheme(t)) ||
                  (exists scheme :: |scheme| == 7 && HasScheme(scheme) && md["authorization"][0] == scheme + t))
  {
    if HEADER in md && md[HEADER] != [] {
      var value := md[HEADER][0];
      if HasScheme(value) {
        assert value == value[..7] + value[7..] && HasScheme(value[..7]);
      }
      forall scheme: string | |scheme| == 7 && HasScheme(scheme) && value == scheme + t
          ensures HasScheme(value) && value[7..] == t
      {
        assert forall i :: 0 <= i < 7 ==> value[i] == scheme[i];
      }
    }
  }

  /**
   * Whatever metadata a request already carries and whatever the token (one that itself starts with the scheme
   * included), what the client injects the server extracts, and every other key arrives as it was.
   */
  lemma RoundTrip(prior: map<string, seq<string>>, token: string)
    requires token != ""
    ensures var sent := prior["authorization" := ["Bearer " + token]];
            && ExtractBearerToken(Some(sent)) == Token(token)
            && forall k :: k != "authorization" ==>
                 (k in sent <==> k in prior) && (k in prior ==> sent[k] == prior[k])
  {
  }

  /** Injection on the client followed by extraction on the server. */
  method InjectThenExtract(ctx: Context, source: Source) returns (r: Extraction)
    requires source.Gives? && source.ctx.token.Some? && source.ctx.token.value != ""
    ensures r == Token(source.ctx.token.value)
  {
    var sent := InjectToken(ctx, source);
    RoundTrip(EntriesOf(source.ctx.outgoing), source.ctx.token.value);
    r := ExtractBearerToken(Some(sent.ctx.outgoing.entries));
  }

  /** The scheme is these seven characters, in any case. */
  lemma SchemeIff(value: string)
    ensures HasScheme(value) <==>
              && |value| >= 7
              && value[0] in "bB" && value[1] in "eE" && value[2] in "aA" && value[3] in "rR" && value[4] in "eE"
              && value[5] in "rR" && value[6] == ' '
  {
  }

  /** Which error comes out, and that any other value yields what is left of it. */
  lemma ErrorsIff(incoming: Option<map<string, seq<string>>>)
    ensures var r := ExtractBearerToken(incoming);
            var given := incoming.Some? && "authorization" in incoming.value &&
                         |incoming.value["authorization"]| > 0 && incoming.value["authorization"][0] != "";
            && (r == MissingMetadata <==> incoming == None)
            && (r == MissingToken <==> incoming.Some? && !given)
            && (r == EmptyToken <==>
                given && |incoming.value["authorization"][0]| == 7 && HasScheme(incoming.value["authorization"][0]))
            && (r.Token? ==> given && r.token != "")
  {
  }
}
