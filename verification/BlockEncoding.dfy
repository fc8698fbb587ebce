/** The text SHA-256 is taken over: eight fields joined by '|' (backend/audit_ledger.py `_compute_hash`).
    The metadata is JSON and may itself contain '|'; the join is still readable in one way only. */
module BlockEncoding {
  datatype Fields = Fields(
    createdAt: string, category: string, action: string, tenant: string, user: string, target: string,
    metadata: string, prevHash: string)

  const BAR := "|"

  function Block(f: Fields): string {
    f.createdAt + (BAR + (f.category + (BAR + (f.action + (BAR + (f.tenant + (BAR + (f.user + (BAR + (f.target + (BAR +
    (f.metadata + (BAR + f.prevHash)))))))))))))
  }

  predicate BarFree(s: string) {
    '|' !in s
  }

  /** The first six fields and the previous hash contain no bar; the metadata is unrestricted. */
  predicate Separable(f: Fields) {
    && BarFree(f.createdAt) && BarFree(f.category) && BarFree(f.action)
    && BarFree(f.tenant) && BarFree(f.user) && BarFree(f.target)
    && BarFree(f.prevHash)
  }

  /** The first bar of `p|x` ends `p`. */
  lemma FirstBar(p: string, x: string, q: string, y: string)
    requires BarFree(p) && BarFree(q) && p + (BAR + x) == q + (BAR + y)
    ensures p == q && x == y
  {
    var s, t := p + (BAR + x), q + (BAR + y);
    assert forall i :: 0 <= i < |p| ==> s[i] == p[i] && p[i] in p;
    assert forall i :: 0 <= i < |q| ==> s[i] == q[i] && q[i] in q;
    assert s[|p|] == '|' && t[|q|] == '|';
    assert p == s[..|p|] && q == t[..|q|];
    assert x == s[|p| + 1..] && y == t[|q| + 1..];
  }

  /** The last bar of `x|p` starts `p`. */
  lemma LastBar(x: string, p: string, y: string, q: string)
    requires BarFree(p) && BarFree(q) && x + (BAR + p) == y + (BAR + q)
    ensures x == y && p == q
  {
    var s, t := x + (BAR + p), y + (BAR + q);
    assert forall i :: |x| < i < |s| ==> s[i] == p[i - |x| - 1] && p[i - |x| - 1] in p;
    assert forall i :: |y| < i < |t| ==> t[i] == q[i - |y| - 1] && q[i - |y| - 1] in q;
    assert s[|x|] == '|' && t[|y|] == '|';
    assert x == s[..|x|] && y == t[..|y|];
    assert p == s[|x| + 1..] && q == t[|y| + 1..];
  }

  function Rest(f: Fields, n: nat): string
    requires n <= 6
    decreases 6 - n
  {
    if n == 6 then f.metadata + (BAR + f.prevHash)
    else Lead(f, n) + (BAR + Rest(f, n + 1))
  }

  function Lead(f: Fields, n: nat): string
    requires n < 6
  {
    match n
    case 0 => f.createdAt
    case 1 => f.category
    case 2 => f.action
    case 3 => f.tenant
    case 4 => f.user
    case _ => f.target
  }

  lemma {:induction false} RestInjective(f: Fields, g: Fields, n: nat)
    requires n <= 6 && Separable(f) && Separable(g) && Rest(f, n) == Rest(g, n)
    ensures forall k :: n <= k < 6 ==> Lead(f, k) == Lead(g, k)
    ensures f.metadata == g.metadata && f.prevHash == g.prevHash
    decreases 6 - n
  {
    if n == 6 {
      LastBar(f.metadata, f.prevHash, g.metadata, g.prevHash);
    } else {
      FirstBar(Lead(f, n), Rest(f, n + 1), Lead(g, n), Rest(g, n + 1));
      RestInjective(f, g, n + 1);
    }
  }

  lemma BlockIsRest(f: Fields)
    ensures Block(f) == Rest(f, 0)
  {
    assert Rest(f, 4) == f.user + (BAR + (f.target + (BAR + Rest(f, 6))));
    assert Rest(f, 2) == f.action + (BAR + (f.tenant + (BAR + Rest(f, 4))));
  }

  /** Equal blocks come from equal fields. */
  lemma BlockInjective(f: Fields, g: Fields)
    requires Separable(f) && Separable(g) && Block(f) == Block(g)
    ensures f == g
  {
    BlockIsRest(f);
    BlockIsRest(g);
    RestInjective(f, g, 0);
    assert Lead(f, 0) == Lead(g, 0) && Lead(f, 1) == Lead(g, 1) && Lead(f, 2) == Lead(g, 2);
    assert Lead(f, 3) == Lead(g, 3) && Lead(f, 4) == Lead(g, 4) && Lead(f, 5) == Lead(g, 5);
  }

  /** The condition matters: a bar inside an earlier field lets two different entries share a block. */
  lemma BarInActionCollides(f: Fields, left: string, middle: string, right: string)
    ensures var g := f.(action := left + (BAR + middle), tenant := right);
            var h := f.(action := left, tenant := middle + (BAR + right));
            Block(g) == Block(h) && g != h
  {
    var g := f.(action := left + (BAR + middle), tenant := right);
    var h := f.(action := left, tenant := middle + (BAR + right));
    var tail := BAR + (f.user + (BAR + (f.target + (BAR + (f.metadata + (BAR + f.prevHash))))));
    assert g.action + (BAR + (g.tenant + tail)) == h.action + (BAR + (h.tenant + tail));
    assert |g.action| != |h.action|;
  }
}
