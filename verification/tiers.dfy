/**
 * `Coder.get_llm_model_name`: pick the first model of an ordered
 * `(name, max_tokens)` table that the credential may use and that can hold
 * the requested token count after a 5% safety buffer.
 */
module ModelTiers {
  import opened Wrappers

  datatype Tier = Tier(name: string, maxTokens: nat)

  /** The table used when an Open Router key is configured. */
  const RouterTable: seq<Tier> := [Tier("openai/gpt-4", 8192), Tier("openai/gpt-4-32k", 32768)]

  /**
   * The table used against the OpenAI API directly, in the order the dict literal
   * of `get_llm_model_name` lists it: not by ascending capacity, so a gpt-4 tier is tried before any
   * gpt-3.5 one.
   */
  const DirectTable: seq<Tier> := [
    Tier("gpt-4", 8192),
    Tier("gpt-4-32k", 32768),
    Tier("gpt-3.5-turbo", 4096),
    Tier("gpt-3.5-turbo-16k", 16384)
  ]

  function Names(table: seq<Tier>): set<string> {
    set t | t in table :: t.name
  }

  /**
   * `int(token_size * 1.05)`, computed exactly: the largest whole number not
   * above 105% of the request.
   */
  function Buffered(tokenSize: nat): (b: nat)
    ensures 100 * b <= 105 * tokenSize < 100 * b + 100
  {
    tokenSize * 105 / 100
  }

  /** Tier `t` is usable by the credential and large enough for `size` tokens. */
  predicate Fits(t: Tier, supported: set<string>, size: nat) {
    t.name in supported && size <= t.maxTokens
  }

  /**
   * The first tier of `table`, in table order, that fits; `None` when none
   * does.
   */
  function FirstFit(table: seq<Tier>, supported: set<string>, size: nat): (r: Option<string>)
    ensures r.None? <==> forall k :: 0 <= k < |table| ==> !Fits(table[k], supported, size)
    ensures r.Some? ==>
              exists k :: 0 <= k < |table| && table[k].name == r.value && Fits(table[k], supported, size)
                          && forall j :: 0 <= j < k ==> !Fits(table[j], supported, size)
  {
    if table == [] then None
    else if Fits(table[0], supported, size) then Some(table[0].name)
    else
      var r := FirstFit(table[1..], supported, size);
      assert forall k :: 1 <= k < |table| ==> table[k] == table[1..][k - 1];
      if r.Some? then
        var k :| 0 <= k < |table[1..]| && table[1..][k].name == r.value && Fits(table[1..][k], supported, size)
                 && forall j :: 0 <= j < k ==> !Fits(table[1..][j], supported, size);
        assert table[k + 1] == table[1..][k];
        assert forall j :: 0 <= j < k + 1 ==> !Fits(table[j], supported, size);
        r
      else r
  }

  /** The table and the supported set that one configuration uses. */
  function TableFor(routerMode: bool): seq<Tier> {
    if routerMode then RouterTable else DirectTable
  }

  /**
   * `get_llm_model_name(token_size)`.  In router mode the supported set is
   * the table's own names; otherwise it is the engine list the OpenAI key
   * reports, `engines`.
   */
  function ModelName(routerMode: bool, engines: set<string>, tokenSize: nat): (r: Option<string>)
    ensures r.Some? ==> exists t :: t in TableFor(routerMode) && t.name == r.value && Buffered(tokenSize) <= t.maxTokens
    ensures r.Some? && !routerMode ==> r.value in engines
  {
    var supported := if routerMode then Names(RouterTable) else engines;
    var r := FirstFit(TableFor(routerMode), supported, Buffered(tokenSize));
    if r.Some? then
      var k :| 0 <= k < |TableFor(routerMode)| && TableFor(routerMode)[k].name == r.value
               && Fits(TableFor(routerMode)[k], supported, Buffered(tokenSize));
      assert TableFor(routerMode)[k] in TableFor(routerMode);
      r
    else r
  }

  /**
   * The for-loop of `get_llm_model_name`, returning at the first tier that fits; it
   * agrees with the first-fit definition.
   */
  method SelectTier(table: seq<Tier>, supported: set<string>, size: nat) returns (r: Option<string>)
    ensures r == FirstFit(table, supported, size)
  {
    var i := 0;
    while i < |table|
      invariant 0 <= i <= |table|
      invariant FirstFit(table[i..], supported, size) == FirstFit(table, supported, size)
    {
      var t := table[i];
      if t.name in supported && size <= t.maxTokens {
        return Some(t.name);
      }
      assert table[i..][1..] == table[i + 1..];
      i := i + 1;
    }
    return None;
  }

  /**
   * Router mode: up to 8192 buffered tokens give `openai/gpt-4`, up to 32768
   * give `openai/gpt-4-32k`, anything larger gives `None`; the engine list
   * plays no part.
   */
  lemma RouterChoice(engines: set<string>, tokenSize: nat)
    ensures Buffered(tokenSize) <= 8192 ==> ModelName(true, engines, tokenSize) == Some("openai/gpt-4")
    ensures 8192 < Buffered(tokenSize) <= 32768 ==> ModelName(true, engines, tokenSize) == Some("openai/gpt-4-32k")
    ensures 32768 < Buffered(tokenSize) ==> ModelName(true, engines, tokenSize) == None
  {
    assert "openai/gpt-4" in Names(RouterTable) by { assert RouterTable[0] in RouterTable; }
    assert "openai/gpt-4-32k" in Names(RouterTable) by { assert RouterTable[1] in RouterTable; }
  }

  /**
   * The direct table is tried in its written order: with every engine
   * available, any request of up to 8192 buffered tokens goes to gpt-4, never
   * to the smaller gpt-3.5-turbo, and one of up to 32768 goes to gpt-4-32k,
   * never to gpt-3.5-turbo-16k.
   */
  lemma DirectOrderKept(engines: set<string>, tokenSize: nat)
    requires Names(DirectTable) <= engines
    ensures Buffered(tokenSize) <= 8192 ==> ModelName(false, engines, tokenSize) == Some("gpt-4")
    ensures 8192 < Buffered(tokenSize) <= 32768 ==> ModelName(false, engines, tokenSize) == Some("gpt-4-32k")
    ensures 32768 < Buffered(tokenSize) ==> ModelName(false, engines, tokenSize) == None
  {
    assert DirectTable[0] in DirectTable;
    assert DirectTable[1] in DirectTable;
  }

  /**
   * A key that may only use gpt-3.5-turbo gets it for requests of up to 4096
   * buffered tokens and nothing above.
   */
  lemma DirectTurboOnly(tokenSize: nat)
    ensures Buffered(tokenSize) <= 4096 ==> ModelName(false, {"gpt-3.5-turbo"}, tokenSize) == Some("gpt-3.5-turbo")
    ensures 4096 < Buffered(tokenSize) ==> ModelName(false, {"gpt-3.5-turbo"}, tokenSize) == None
  {
    var s: set<string> := {"gpt-3.5-turbo"};
    assert "gpt-4" !in s && "gpt-4-32k" !in s && "gpt-3.5-turbo-16k" !in s;
    assert !Fits(DirectTable[0], s, Buffered(tokenSize));
    assert !Fits(DirectTable[1], s, Buffered(tokenSize));
    if Buffered(tokenSize) <= 4096 {
      var b := Buffered(tokenSize);
      assert Fits(DirectTable[2], s, b);
      var r := FirstFit(DirectTable, s, b);
      assert r.Some?;
      var k :| 0 <= k < |DirectTable| && DirectTable[k].name == r.value && Fits(DirectTable[k], s, b)
               && forall j :: 0 <= j < k ==> !Fits(DirectTable[j], s, b);
      assert k == 2;
    }
  }

  /** 7800 tokens buffer to 8190 and still fit gpt-4; 8000 buffer to 8400 and need gpt-4-32k. */
  lemma BufferScenarios()
    ensures Buffered(7800) == 8190 && ModelName(true, {}, 7800) == Some("openai/gpt-4")
    ensures Buffered(8000) == 8400 && ModelName(true, {}, 8000) == Some("openai/gpt-4-32k")
  {
    RouterChoice({}, 7800);
    RouterChoice({}, 8000);
  }
}
