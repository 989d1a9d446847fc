/** The fingerprint of a Project's listing: the digest of its canonical text. */
module Listings {
  import opened Json
  import opened Tokens
  import opened AdapterSpec
  import opened AdapterRuns
  import Bridge

  function ListingJson(l: Listing): (v: Json)
    ensures WellFormed(v)
  {
    JObj(TextField("kind", l.kind, TextField("manifest_path", l.manifest, TextField("name", l.name,
         TextField("project_id", l.project, TextField("root", l.root, TextField("status", l.status, NoField)))))))
  }

  function ListingText(l: Listing): string { Print(ListingJson(l)) }

  /** The context's fingerprints are those the code takes. */
  ghost predicate TakesDigests(c: Bridge.Crypto, ctx: Context) {
    forall l :: ctx.fingerprint(l) == c.sha(ListingText(l))
  }

  lemma ListingTextInjective(l: Listing, m: Listing)
    requires ListingText(l) == ListingText(m)
    ensures l == m
  {
    PrintInjective(ListingJson(l), ListingJson(m));
  }

  /** A binding stays in its very Project until it is closed, promotions included and whatever the
      resolver says, or two listings have been found whose texts collide. */
  lemma ProjectStays(c: Bridge.Crypto, ctx: Context, states: seq<Sys>, ops: seq<Op>, k: nat, m: nat)
    requires TakesDigests(c, ctx) && IsRun(ctx, states, ops) && k <= m <= |ops|
    requires (forall j :: k <= j < m ==> !ops[j].DoClose?) && Rank(states[k].f) > 0
    ensures var f, f' := states[k].f, states[m].f;
            && f.runtime.Some? && f'.runtime.Some? && f'.binding.Some?
            && var l, l' := f.runtime.value.evidence.listing, f'.runtime.value.evidence.listing;
               || (l' == l && f'.binding.value.project == f.binding.value.project)
               || Bridge.Collision(c, ListingText(l), ListingText(l'))
  {
    RunInv(ctx, states, ops, k);
    RunInv(ctx, states, ops, m);
    OnlyForward(ctx, states, ops, k, m);
    var l, l' := states[k].f.runtime.value.evidence.listing, states[m].f.runtime.value.evidence.listing;
    if ListingText(l) == ListingText(l') { ListingTextInjective(l, l'); }
  }
}
