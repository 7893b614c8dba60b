/** The capability set an IRC session negotiates with its client (IRCv3
    Capability Negotiation): the tokens the client requested and whether a
    negotiation is open. Tokens are kept in the order they were first added,
    without repetition, which is the order `List` reports them in. */
module Capabilities {

  datatype CapSet = CapSet(tokens: seq<string>, negotiating: bool)

  /** No token appears twice. */
  predicate Valid(c: CapSet)
  {
    forall i, j :: 0 <= i < j < |c.tokens| ==> c.tokens[i] != c.tokens[j]
  }

  /** The set a fresh session starts with: nothing negotiated. */
  function Empty(): (c: CapSet)
    ensures Valid(c) && c.tokens == [] && !c.negotiating
  {
    CapSet([], false)
  }

  function Has(c: CapSet, token: string): bool
  {
    token in c.tokens
  }

  /** The negotiated tokens, in a stable order. */
  function List(c: CapSet): seq<string>
  {
    c.tokens
  }

  function StartNegotiation(c: CapSet): (r: CapSet)
    ensures r.tokens == c.tokens && r.negotiating
  {
    c.(negotiating := true)
  }

  function FinishNegotiation(c: CapSet): (r: CapSet)
    ensures r.tokens == c.tokens && !r.negotiating
  {
    c.(negotiating := false)
  }

  /** Adds one token; adding a token already present changes nothing. */
  function Add(c: CapSet, token: string): (r: CapSet)
    requires Valid(c)
    ensures Valid(r) && r.negotiating == c.negotiating
    ensures Has(r, token)
    ensures forall t :: Has(r, t) <==> Has(c, t) || t == token
    ensures Has(c, token) ==> r == c
    ensures !Has(c, token) ==> r.tokens == c.tokens + [token]
  {
    if token in c.tokens then c else c.(tokens := c.tokens + [token])
  }

  /** Adds every token of `ts` in turn, as the loop over a `CAP REQ` does. */
  function AddAll(c: CapSet, ts: seq<string>): (r: CapSet)
    requires Valid(c)
    ensures Valid(r) && r.negotiating == c.negotiating
    decreases |ts|
  {
    if |ts| == 0 then c else AddAll(Add(c, ts[0]), ts[1..])
  }

  /** Adding a list of tokens never rejects one and never drops one: the
      result holds exactly the old tokens and the new ones, and the old
      tokens keep their places at the front of the list. */
  lemma {:induction false} AddAllExactly(c: CapSet, ts: seq<string>)
    requires Valid(c)
    ensures forall t :: Has(AddAll(c, ts), t) <==> Has(c, t) || t in ts
    ensures c.tokens <= AddAll(c, ts).tokens
    decreases |ts|
  {
    if |ts| > 0 {
      var c' := Add(c, ts[0]);
      AddAllExactly(c', ts[1..]);
      assert ts == [ts[0]] + ts[1..];
      forall t ensures t in ts <==> t == ts[0] || t in ts[1..] {
      }
    }
  }
}
