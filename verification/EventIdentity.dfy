/** The byte strings hashed into ledger event ids. With a collision-free hash,
    two charges share an event only if they agree on kind, account and request. */
module EventIdentity {
  import opened Text

  datatype Kind = Live | Offline

  const NUL: string := "\0"

  function Domain(kind: Kind): string {
    if kind.Live? then "kioku.recording_seconds_v1" else "kioku.offline_recording_seconds_v1"
  }

  function Preimage(kind: Kind, account: string, request: string): string {
    Domain(kind) + NUL + account + NUL + request
  }

  lemma SplitAtNul(a: string, x: string, b: string, y: string)
    requires '\0' !in a && '\0' !in b && a + NUL + x == b + NUL + y
    ensures a == b && x == y
  {
    SplitAt('\0', a, x, b, y);
    SplitAt('\0', b, y, a, x);
  }

  lemma TwoSeparators(d1: string, a1: string, r1: string, d2: string, a2: string, r2: string)
    requires '\0' !in d1 && '\0' !in d2 && '\0' !in a1 && '\0' !in a2
    requires d1 + NUL + a1 + NUL + r1 == d2 + NUL + a2 + NUL + r2
    ensures d1 == d2 && a1 == a2 && r1 == r2
  {
    assert d1 + NUL + a1 + NUL + r1 == d1 + NUL + (a1 + NUL + r1);
    assert d2 + NUL + a2 + NUL + r2 == d2 + NUL + (a2 + NUL + r2);
    SplitAtNul(d1, a1 + NUL + r1, d2, a2 + NUL + r2);
    SplitAtNul(a1, r1, a2, r2);
  }

  lemma DomainsDiffer()
    ensures '\0' !in Domain(Live) && '\0' !in Domain(Offline) && Domain(Live) != Domain(Offline)
  {
    assert Domain(Live)[6] == 'r' && Domain(Offline)[6] == 'o';
  }

  /** Account ids contain no NUL; nothing is asked of request ids. */
  lemma EventPreimagesDistinguish(k1: Kind, a1: string, r1: string, k2: Kind, a2: string, r2: string)
    requires '\0' !in a1 && '\0' !in a2
    ensures Preimage(k1, a1, r1) == Preimage(k2, a2, r2) <==> k1 == k2 && a1 == a2 && r1 == r2
  {
    DomainsDiffer();
    if Preimage(k1, a1, r1) == Preimage(k2, a2, r2) {
      TwoSeparators(Domain(k1), a1, r1, Domain(k2), a2, r2);
    }
  }
}
