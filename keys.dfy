/**
 * Cache keys of the form "<namespace>---<kind>---<id>---<language>": "TMDB" for
 * search-side detail entries, "trailers" for trailer entries.
 */
module Keys {
  import opened Text

  const Sep := "---"
  const DetailNamespace := "TMDB"
  const TrailerNamespace := "trailers"

  function CacheKey(namespace: string, kind: string, idText: string, language: string): string {
    namespace + Sep + kind + Sep + idText + Sep + language
  }

  /**
   * f"TMDB---{kind}---{id}---{language}": when kind and id hold no '-', the key
   * reads back as the namespace, the kind and the id, then the language's pieces.
   */
  function DetailKey(kind: string, idText: string, language: string): (key: string)
    ensures '-' !in kind && '-' !in idText ==>
              Split(key, Sep) == [DetailNamespace, kind, idText] + Split(language, Sep)
  {
    if '-' !in kind && '-' !in idText then
      SplitCacheKey(DetailNamespace, kind, idText, language);
      CacheKey(DetailNamespace, kind, idText, language)
    else
      CacheKey(DetailNamespace, kind, idText, language)
  }

  /**
   * f"trailers---{media_type}---{str(ids)}---{lang}": when kind and id hold no
   * '-', the key reads back as the namespace, the kind and the id, then the
   * language's pieces.
   */
  function TrailerKey(kind: string, idText: string, language: string): (key: string)
    ensures '-' !in kind && '-' !in idText ==>
              Split(key, Sep) == [TrailerNamespace, kind, idText] + Split(language, Sep)
  {
    if '-' !in kind && '-' !in idText then
      SplitCacheKey(TrailerNamespace, kind, idText, language);
      CacheKey(TrailerNamespace, kind, idText, language)
    else
      CacheKey(TrailerNamespace, kind, idText, language)
  }

  /** The first three parts of a key, read back with split('---'). */
  lemma SplitCacheKey(namespace: string, kind: string, idText: string, language: string)
    requires '-' !in namespace && '-' !in kind && '-' !in idText
    ensures Split(CacheKey(namespace, kind, idText, language), Sep) == [namespace, kind, idText] + Split(language, Sep)
  {
    var c := idText + Sep + language;
    var b := kind + Sep + c;
    var key := CacheKey(namespace, kind, idText, language);
    assert key == namespace + Sep + b;
    calc {
      Split(key, Sep);
      { SplitAfterPiece(namespace, Sep, b); }
      [namespace] + Split(b, Sep);
      { SplitAfterPiece(kind, Sep, c); }
      [namespace] + ([kind] + Split(c, Sep));
      { SplitAfterPiece(idText, Sep, language); }
      [namespace] + ([kind] + ([idText] + Split(language, Sep)));
      [namespace, kind, idText] + Split(language, Sep);
    }
  }

  /**
   * Distinct resources never share a key: when namespace, kind and id hold no
   * '-', the key determines all four parts (the language may be anything).
   */
  lemma CacheKeyInjective(n1: string, k1: string, i1: string, l1: string,
                          n2: string, k2: string, i2: string, l2: string)
    requires '-' !in n1 && '-' !in k1 && '-' !in i1
    requires '-' !in n2 && '-' !in k2 && '-' !in i2
    requires CacheKey(n1, k1, i1, l1) == CacheKey(n2, k2, i2, l2)
    ensures n1 == n2 && k1 == k2 && i1 == i2 && l1 == l2
  {
    SplitCacheKey(n1, k1, i1, l1);
    SplitCacheKey(n2, k2, i2, l2);
    var parts1 := Split(CacheKey(n1, k1, i1, l1), Sep);
    assert parts1[0] == n1 && parts1[1] == k1 && parts1[2] == i1;
    assert n1 == n2 && k1 == k2 && i1 == i2;
    var prefix := n1 + Sep + k1 + Sep + i1 + Sep;
    assert CacheKey(n1, k1, i1, l1) == prefix + l1;
    assert CacheKey(n2, k2, i2, l2) == prefix + l2;
    assert l1 == (prefix + l1)[|prefix|..];
  }

  /** Decimal ids hold no '-'. */
  lemma NatTextHasNoDash(n: nat)
    ensures '-' !in NatText(n)
  {
    var t := NatText(n);
    assert forall i :: 0 <= i < |t| ==> t[i] != '-' by {
      assert AllDigits(t);
    }
  }

  /** Detail keys of two titles with non-negative integer ids coincide only for the same kind, id and language. */
  lemma DetailKeyInjective(k1: string, id1: nat, l1: string, k2: string, id2: nat, l2: string)
    requires '-' !in k1 && '-' !in k2
    requires DetailKey(k1, NatText(id1), l1) == DetailKey(k2, NatText(id2), l2)
    ensures k1 == k2 && id1 == id2 && l1 == l2
  {
    NatTextHasNoDash(id1);
    NatTextHasNoDash(id2);
    CacheKeyInjective(DetailNamespace, k1, NatText(id1), l1, DetailNamespace, k2, NatText(id2), l2);
    DigitsValueOfNatText(id1);
    DigitsValueOfNatText(id2);
  }
}
