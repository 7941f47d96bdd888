/** `Route` of domain/route.py: a path of vertices and its cost, and the route signature
    both the dashboard and the order simulator print: the vertices' strings joined by an
    arrow. */
module Routes {
  import opened Text
  import opened Vertices

  datatype Route = Route(path: seq<Vertex>, cost: int)

  /** The separator of a route signature. */
  const Arrow: string := " \U{2192} "

  /** `str(v)` for each vertex of the path. */
  function Names(path: seq<Vertex>): (r: seq<string>)
    ensures |r| == |path| && forall i :: 0 <= i < |path| ==> r[i] == Str(path[i])
  {
    seq(|path|, i requires 0 <= i < |path| => Str(path[i]))
  }

  /** `" → ".join(str(v) for v in route.path)`. */
  function Signature(path: seq<Vertex>): string
  {
    Join(Names(path), Arrow)
  }

  /** On integer vertices the signature identifies the path: the arrow never occurs in
      the decimal form of an integer. */
  lemma SignatureInjective(p: seq<Vertex>, q: seq<Vertex>)
    requires |p| > 0 && |q| > 0
    requires forall i :: 0 <= i < |p| ==> p[i].element.IntElement?
    requires forall i :: 0 <= i < |q| ==> q[i].element.IntElement?
    requires Signature(p) == Signature(q)
    ensures p == q
  {
    var mark := '\U{2192}';
    forall i | 0 <= i < |p|
      ensures Avoids(Names(p)[i], mark)
    {
      IntStrAvoids(p[i], mark);
    }
    forall i | 0 <= i < |q|
      ensures Avoids(Names(q)[i], mark)
    {
      IntStrAvoids(q[i], mark);
    }
    assert Arrow[1] == mark;
    JoinInjective(Names(p), Names(q), Arrow, mark);
    forall i | 0 <= i < |p|
      ensures p[i] == q[i]
    {
      IntStrInjective(p[i], q[i]);
    }
  }
}
