/** QueryEmbeddingCache.generate_cache_key: which requests share a cache entry.

    The key is the SHA-256 digest of a canonical text; the digest is taken to be injective, so the
    claims are about the text. */
module CacheKey {
  import opened Text

  datatype Identity = Identity(provider: string, model: string, dimension: nat)

  /** White space of Python's str.strip(). */
  predicate IsWhite(c: char) {
    || '\t' <= c <= '\r' || '\U{1c}' <= c <= ' ' || c == '\U{85}' || c == '\U{a0}' || c == '\U{1680}'
    || '\U{2000}' <= c <= '\U{200a}' || c == '\U{2028}' || c == '\U{2029}' || c == '\U{202f}'
    || c == '\U{205f}' || c == '\U{3000}'
  }

  predicate IsStripped(s: string) {
    s != "" ==> !IsWhite(s[0]) && !IsWhite(s[|s| - 1])
  }

  function Strip(s: string): (r: string)
    ensures IsStripped(r)
    ensures IsStripped(s) ==> r == s
    decreases |s|
  {
    if s != "" && IsWhite(s[0]) then Strip(s[1..])
    else if s != "" && IsWhite(s[|s| - 1]) then Strip(s[..|s| - 1])
    else s
  }

  predicate AllWhite(s: string) {
    forall c | c in s :: IsWhite(c)
  }

  /** core is what is left of s without the white space around it. */
  ghost predicate IsCore(core: string, s: string) {
    IsStripped(core) && exists head, tail :: AllWhite(head) && AllWhite(tail) && s == head + core + tail
  }

  lemma AllWhiteConcat(s: string, t: string)
    requires AllWhite(s) && AllWhite(t)
    ensures AllWhite(s + t)
  {
  }

  lemma {:induction false} WhatStripTakes(s: string) returns (head: string, tail: string)
    ensures AllWhite(head) && AllWhite(tail) && s == head + Strip(s) + tail
    decreases |s|
  {
    if s != "" && IsWhite(s[0]) {
      head, tail := WhatStripTakes(s[1..]);
      AllWhiteConcat([s[0]], head);
      assert s == [s[0]] + s[1..];
      head := [s[0]] + head;
    } else if s != "" && IsWhite(s[|s| - 1]) {
      head, tail := WhatStripTakes(s[..|s| - 1]);
      AllWhiteConcat(tail, [s[|s| - 1]]);
      assert s == s[..|s| - 1] + [s[|s| - 1]];
      tail := tail + [s[|s| - 1]];
    } else {
      head, tail := "", "";
    }
  }

  lemma StripLeavesTheCore(s: string)
    ensures IsCore(Strip(s), s)
  {
    var head, tail := WhatStripTakes(s);
  }

  lemma {:induction false} CoreIsStripped(head: string, core: string, tail: string)
    requires AllWhite(head) && AllWhite(tail) && IsStripped(core)
    ensures Strip(head + core + tail) == core
    decreases |head| + |tail|
  {
    var s := head + core + tail;
    if head != "" {
      assert s[0] == head[0] && s[1..] == head[1..] + core + tail;
      CoreIsStripped(head[1..], core, tail);
    } else if tail != "" {
      assert s == core + tail && s[|s| - 1] == tail[|tail| - 1];
      if core == "" {
        assert s[0] in tail && s[1..] == "" + core + tail[1..];
        CoreIsStripped("", core, tail[1..]);
      } else {
        assert s[0] == core[0] && s[..|s| - 1] == "" + core + tail[..|tail| - 1];
        CoreIsStripped("", core, tail[..|tail| - 1]);
      }
    } else {
      assert s == core;
    }
  }

  /** Stripping takes away exactly the white space around the text. */
  lemma StripIsTheCore(s: string, core: string)
    ensures Strip(s) == core <==> IsCore(core, s)
  {
    StripLeavesTheCore(s);
    if IsCore(core, s) {
      var head, tail :| AllWhite(head) && AllWhite(tail) && s == head + core + tail;
      CoreIsStripped(head, core, tail);
    }
  }

  /** The queries are the same up to the white space around them. */
  ghost predicate SameQuery(q: string, q': string) {
    exists core :: IsCore(core, q) && IsCore(core, q')
  }

  lemma SameQueryMeansSameStrip(q: string, q': string)
    ensures SameQuery(q, q') <==> Strip(q) == Strip(q')
  {
    StripIsTheCore(q, Strip(q));
    StripIsTheCore(q', Strip(q'));
    if core :| IsCore(core, q) && IsCore(core, q') {
      StripIsTheCore(q, core);
      StripIsTheCore(q', core);
    }
  }

  /** Everything in front of the query. */
  function Header(id: Identity): string {
    id.provider + (":" + (id.model + (":" + (Digits(id.dimension) + ":"))))
  }

  function CanonicalText(id: Identity, query: string): string {
    Header(id) + Strip(query)
  }

  lemma Spelled(id: Identity, query: string)
    ensures CanonicalText(id, query)
         == id.provider + (":" + (id.model + (":" + (Digits(id.dimension) + (":" + Strip(query))))))
  {
    var p, m, d, q := id.provider, id.model, Digits(id.dimension), Strip(query);
    assert (p + (":" + (m + (":" + (d + ":"))))) + q == p + (":" + (m + (":" + (d + (":" + q)))));
  }

  lemma DimensionAndQueryCanBeReadBack(m: nat, n: nat, x: string, y: string)
    requires Digits(m) + (":" + x) == Digits(n) + (":" + y)
    ensures m == n && x == y
  {
    CutAt(":", Digits(m), Digits(n), x, y);
    DigitsAreInjective(m, n);
  }

  /** Under one provider and model, whatever their names, two requests share an entry exactly when
      they have the same dimension and the same query up to the white space around it. */
  lemma OneModelSharesByQuery(id: Identity, id': Identity, q: string, q': string)
    requires id.provider == id'.provider && id.model == id'.model
    ensures CanonicalText(id, q) == CanonicalText(id', q')
       <==> id.dimension == id'.dimension && SameQuery(q, q')
  {
    SameQueryMeansSameStrip(q, q');
    if CanonicalText(id, q) == CanonicalText(id', q') {
      Spelled(id, q);
      Spelled(id', q');
      var t, t' := Digits(id.dimension) + (":" + Strip(q)), Digits(id'.dimension) + (":" + Strip(q'));
      DropPrefix(id.provider, ":" + (id.model + (":" + t)), ":" + (id.model + (":" + t')));
      DropPrefix(":", id.model + (":" + t), id.model + (":" + t'));
      DropPrefix(id.model, ":" + t, ":" + t');
      DropPrefix(":", t, t');
      DimensionAndQueryCanBeReadBack(id.dimension, id'.dimension, Strip(q), Strip(q'));
    }
  }

  /** The header of id' goes on where that of id ends, and not with white space. */
  predicate GoesOn(id: Identity, id': Identity) {
    && Header(id) <= Header(id')
    && (Header(id) != Header(id') ==> !IsWhite(Header(id')[|Header(id)|]))
  }

  /** Two identities can get the same entry, for some queries, exactly when the header of one goes on
      where that of the other ends.  The configured names decide it. */
  lemma EntriesMeetExactly(id: Identity, id': Identity)
    ensures (exists q, q' :: CanonicalText(id, q) == CanonicalText(id', q'))
       <==> GoesOn(id, id') || GoesOn(id', id)
  {
    if q, q' :| CanonicalText(id, q) == CanonicalText(id', q') {
      if |Header(id)| <= |Header(id')| {
        LongerGoesOn(id, id', q, q');
      } else {
        LongerGoesOn(id', id, q', q);
      }
    }
    if GoesOn(id, id') {
      RestIsAQuery(id, id');
    } else if GoesOn(id', id) {
      RestIsAQuery(id', id);
    }
  }

  lemma LongerGoesOn(id: Identity, id': Identity, q: string, q': string)
    requires CanonicalText(id, q) == CanonicalText(id', q') && |Header(id)| <= |Header(id')|
    ensures GoesOn(id, id')
  {
    var text, n, n' := CanonicalText(id, q), |Header(id)|, |Header(id')|;
    assert Header(id) == text[..n] && Header(id') == text[..n'];
    if n < n' {
      assert text[n] == Strip(q)[0] == Header(id')[n];
    }
  }

  lemma RestIsAQuery(id: Identity, id': Identity)
    requires GoesOn(id, id')
    ensures exists q, q' :: CanonicalText(id, q) == CanonicalText(id', q')
  {
    var rest := Header(id')[|Header(id)|..];
    assert Header(id') == Header(id) + rest;
    assert Header(id')[|Header(id')| - 1] == ':';
    assert rest != "" ==> rest[|rest| - 1] == ':';
    assert CanonicalText(id, rest) == CanonicalText(id', "");
  }

  /** Between models whose names hold no colon, requests share an entry exactly when everything but
      the white space around the query is the same. */
  lemma ColonFreeNamesNeverClash(id: Identity, id': Identity, q: string, q': string)
    requires ':' !in id.provider && ':' !in id'.provider
    requires ':' !in id.model && ':' !in id'.model
    ensures CanonicalText(id, q) == CanonicalText(id', q') <==> id == id' && SameQuery(q, q')
    ensures GoesOn(id, id') || GoesOn(id', id) <==> id == id'
  {
    SameQueryMeansSameStrip(q, q');
    ColonFreeNamesAreReadBack(id, id', q, q');
    EntriesMeetExactly(id, id');
    if r, r' :| CanonicalText(id, r) == CanonicalText(id', r') {
      ColonFreeNamesAreReadBack(id, id', r, r');
    }
  }

  lemma ColonFreeNamesAreReadBack(id: Identity, id': Identity, q: string, q': string)
    requires ':' !in id.provider && ':' !in id'.provider
    requires ':' !in id.model && ':' !in id'.model
    ensures CanonicalText(id, q) == CanonicalText(id', q') <==> id == id' && Strip(q) == Strip(q')
  {
    if CanonicalText(id, q) == CanonicalText(id', q') {
      Spelled(id, q);
      Spelled(id', q');
      var t, t' := Digits(id.dimension) + (":" + Strip(q)), Digits(id'.dimension) + (":" + Strip(q'));
      CutAt(":", id.provider, id'.provider, id.model + (":" + t), id'.model + (":" + t'));
      CutAt(":", id.model, id'.model, t, t');
      DimensionAndQueryCanBeReadBack(id.dimension, id'.dimension, Strip(q), Strip(q'));
    }
  }

  /** A colon moved between provider and model changes the model that is asked but not the header, so
      the two share the entry of every query. */
  lemma ColonsClash(p: string, x: string, y: string, dimension: nat, q: string)
    ensures
      var id, id' := Identity(p, x + (":" + y), dimension), Identity(p + (":" + x), y, dimension);
      id != id' && Header(id) == Header(id') && CanonicalText(id, q) == CanonicalText(id', q)
  {
    assert |p| < |p + (":" + x)|;
    var t := ":" + (Digits(dimension) + ":");
    assert p + (":" + ((x + (":" + y)) + t)) == (p + (":" + x)) + (":" + (y + t));
  }
}
