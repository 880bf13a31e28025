/** Extraction of the next-page cursor URL from an HTTP `link` response
    header, following the "next" relation of the Web Linking standard
    (section 3 of RFC 8288) with the naive reading the handlers use: split
    on ',', take the first piece that mentions `rel="next"`, and capture the
    text of its first `<…>` group. */
module LinkHeader {
  import opened Basics
  import opened Strings

  /** The relation marker the handlers search each piece for. */
  const NextMarker: string := "rel=\"next\""

  /** The longest prefix of `s` without `c`: what `[^c]*` consumes. */
  function TakeUntil(s: string, c: char): string
    decreases |s|
  {
    if |s| == 0 || s[0] == c then [] else [s[0]] + TakeUntil(s[1..], c)
  }

  /** `TakeUntil` stops exactly at the first `c`: its result is a `c`-free
      prefix, shorter than `s` only when `s` holds `c`, and then followed by it. */
  lemma {:induction false} TakeUntilSpec(s: string, c: char)
    ensures TakeUntil(s, c) <= s && c !in TakeUntil(s, c)
    ensures |TakeUntil(s, c)| < |s| <==> c in s
    ensures |TakeUntil(s, c)| < |s| ==> s[|TakeUntil(s, c)|] == c
    decreases |s|
  {
    if |s| > 0 && s[0] != c {
      TakeUntilSpec(s[1..], c);
      assert s == [s[0]] + s[1..];
    }
  }

  /** Index `i` starts a match of `/<([^>]+)>/`: a '<', at least one
      character other than '>', and a later '>'. */
  ghost predicate OpensGroup(s: string, i: int) {
    0 <= i && i + 2 < |s| && s[i] == '<' && s[i + 1] != '>' && '>' in s[i + 2..]
  }

  /** The first capture group of `s.match(/<([^>]+)>/)`, if any. */
  function AngleGroup(s: string): Option<string>
    decreases |s|
  {
    if |s| == 0 then None
    else
      var body := TakeUntil(s[1..], '>');
      if s[0] == '<' && body != [] && |body| + 1 < |s| then Some(body)
      else AngleGroup(s[1..])
  }

  /** The group is taken at the leftmost index that opens one, and runs up
      to the first '>' after it: it is absent exactly when no index opens a
      group, and otherwise non-empty and free of '>'. */
  lemma {:induction false} AngleGroupSpec(s: string)
    ensures AngleGroup(s).None? <==> forall i :: !OpensGroup(s, i)
    ensures AngleGroup(s).Some? ==>
      exists i :: OpensGroup(s, i) && (forall k :: 0 <= k < i ==> !OpensGroup(s, k))
        && AngleGroup(s).value == TakeUntil(s[i + 1..], '>')
    ensures AngleGroup(s).Some? ==> AngleGroup(s).value != [] && '>' !in AngleGroup(s).value
    decreases |s|
  {
    if |s| > 0 {
      var body := TakeUntil(s[1..], '>');
      TakeUntilSpec(s[1..], '>');
      if s[0] == '<' && body != [] && |body| + 1 < |s| {
        assert s[1..] == [s[1]] + s[2..];
        assert OpensGroup(s, 0);
      } else {
        assert !OpensGroup(s, 0) by {
          if |s| >= 2 { assert s[1..] == [s[1]] + s[2..]; }
        }
        AngleGroupSpec(s[1..]);
        SkipFirst(s, AngleGroup(s[1..]));
      }
    }
  }

  /** When index 0 opens no group, the leftmost group of `s` is the leftmost
      group of `s[1..]`, shifted by one. */
  lemma SkipFirst(s: string, rest: Option<string>)
    requires |s| > 0 && !OpensGroup(s, 0)
    requires rest.None? <==> forall i :: !OpensGroup(s[1..], i)
    requires rest.Some? ==>
      exists i :: OpensGroup(s[1..], i) && (forall k :: 0 <= k < i ==> !OpensGroup(s[1..], k))
        && rest.value == TakeUntil(s[1..][i + 1..], '>')
    ensures rest.None? <==> forall i :: !OpensGroup(s, i)
    ensures rest.Some? ==>
      exists i :: OpensGroup(s, i) && (forall k :: 0 <= k < i ==> !OpensGroup(s, k))
        && rest.value == TakeUntil(s[i + 1..], '>')
  {
    forall i ensures OpensGroup(s[1..], i) <==> OpensGroup(s, i + 1) {
      if 0 <= i && i + 3 < |s| { assert s[1..][i + 2..] == s[i + 3..]; }
    }
    forall i | OpensGroup(s, i) ensures i >= 1 && OpensGroup(s[1..], i - 1) { }
    if rest.Some? {
      var i :| OpensGroup(s[1..], i) && (forall k :: 0 <= k < i ==> !OpensGroup(s[1..], k))
        && rest.value == TakeUntil(s[1..][i + 1..], '>');
      assert s[1..][i + 1..] == s[i + 2..];
      assert OpensGroup(s, i + 1);
    }
  }

  /** `segs.find(s => s.includes(pat))`: the first piece mentioning `pat`. */
  function FindSegment(segs: seq<string>, pat: string): Option<string>
    decreases |segs|
  {
    if |segs| == 0 then None
    else if Contains(segs[0], pat) then Some(segs[0])
    else FindSegment(segs[1..], pat)
  }

  /** `find` answers nothing exactly when no piece mentions `pat`, and
      otherwise the first piece that does. */
  lemma {:induction false} FindSegmentSpec(segs: seq<string>, pat: string)
    ensures FindSegment(segs, pat).None? <==> forall i :: 0 <= i < |segs| ==> !Contains(segs[i], pat)
    ensures FindSegment(segs, pat).Some? ==>
      exists i :: 0 <= i < |segs| && segs[i] == FindSegment(segs, pat).value && Contains(segs[i], pat)
        && forall k :: 0 <= k < i ==> !Contains(segs[k], pat)
    decreases |segs|
  {
    if |segs| > 0 && !Contains(segs[0], pat) {
      FindSegmentSpec(segs[1..], pat);
      var r := FindSegment(segs[1..], pat);
      assert forall i :: 0 < i < |segs| ==> segs[i] == segs[1..][i - 1];
      if r.Some? {
        var i :| 0 <= i < |segs| - 1 && segs[1..][i] == r.value && Contains(segs[1..][i], pat)
          && forall k :: 0 <= k < i ==> !Contains(segs[1..][k], pat);
        assert segs[i + 1] == r.value;
      }
    } else if |segs| > 0 {
      assert segs[0] == FindSegment(segs, pat).value;
    }
  }

  /** The URL the handlers request next, given the `link` header of the
      last response; `None` ends the pagination loop. */
  function NextUrl(header: Option<string>): Option<string> {
    match header
    case None => None
    case Some(h) =>
      match FindSegment(Split(h, ','), NextMarker)
      case None => None
      case Some(seg) => AngleGroup(seg)
  }

  /** A missing header ends the loop, and a next URL is never empty and
      never holds '>', so the loop's `while (url)` test sees it as present. */
  lemma NextUrlShape(header: Option<string>)
    ensures header.None? ==> NextUrl(header).None?
    ensures NextUrl(header).Some? ==> NextUrl(header).value != [] && '>' !in NextUrl(header).value
  {
    if header.Some? {
      var found := FindSegment(Split(header.value, ','), NextMarker);
      if found.Some? {
        AngleGroupSpec(found.value);
      }
    }
  }

  /** A next URL comes only from the first comma-separated piece that
      mentions `rel="next"`: with no such piece there is none, and when that
      piece holds no `<…>` group there is none either, whatever later pieces
      hold. */
  lemma NextUrlSource(h: string)
    ensures (forall seg :: seg in Split(h, ',') ==> !Contains(seg, NextMarker)) ==> NextUrl(Some(h)).None?
    ensures NextUrl(Some(h)).Some? <==>
      exists i :: 0 <= i < |Split(h, ',')| && Contains(Split(h, ',')[i], NextMarker)
        && (forall k :: 0 <= k < i ==> !Contains(Split(h, ',')[k], NextMarker))
        && AngleGroup(Split(h, ',')[i]).Some?
    ensures NextUrl(Some(h)).Some? ==>
      exists seg :: seg in Split(h, ',') && Contains(seg, NextMarker) && AngleGroup(seg) == NextUrl(Some(h))
  {
    var segs := Split(h, ',');
    var found := FindSegment(segs, NextMarker);
    FindSegmentSpec(segs, NextMarker);
    if found.Some? {
      var i :| 0 <= i < |segs| && segs[i] == found.value && Contains(segs[i], NextMarker)
        && forall k :: 0 <= k < i ==> !Contains(segs[k], NextMarker);
      forall j | 0 <= j < |segs| && Contains(segs[j], NextMarker)
          && (forall k :: 0 <= k < j ==> !Contains(segs[k], NextMarker))
        ensures j == i
      {
      }
    }
  }

  /** One entry of a `link` header as a server writes it. */
  datatype Link = Link(url: string, rel: string)

  /** `<url>; rel="rel"`. */
  function LinkValue(l: Link): string {
    "<" + l.url + ">; rel=\"" + l.rel + "\""
  }

  /** A link the naive parser can read back: a non-empty URL and a relation
      name that hold none of the characters the parser splits or stops on. */
  predicate WellFormed(l: Link) {
    && l.url != [] && ',' !in l.url && '>' !in l.url && '"' !in l.url
    && ',' !in l.rel && '"' !in l.rel
  }

  /** The pieces of a header whose entries are joined by ", ". */
  function LinkSegments(links: seq<Link>): (segs: seq<string>)
    ensures |segs| == |links|
    ensures forall i :: 0 <= i < |links| ==> segs[i] == (if i == 0 then "" else " ") + LinkValue(links[i])
  {
    seq(|links|, i requires 0 <= i < |links| => (if i == 0 then "" else " ") + LinkValue(links[i]))
  }

  /** The `link` header a server sends for `links`. */
  function FormatLinkHeader(links: seq<Link>): string
    requires |links| >= 1
  {
    Join(LinkSegments(links), ',')
  }

  /** The URL of the first link whose relation is "next". */
  function NextTarget(links: seq<Link>): Option<string>
    decreases |links|
  {
    if |links| == 0 then None
    else if links[0].rel == "next" then Some(links[0].url)
    else NextTarget(links[1..])
  }

  /** Round trip: on a header of well-formed links the parser returns the
      target of the first "next" link, and nothing when there is none. */
  lemma NextUrlOfFormatted(links: seq<Link>)
    requires |links| >= 1
    requires forall i :: 0 <= i < |links| ==> WellFormed(links[i])
    ensures NextUrl(Some(FormatLinkHeader(links))) == NextTarget(links)
  {
    var segs := LinkSegments(links);
    forall i | 0 <= i < |segs|
      ensures ',' !in segs[i]
      ensures Contains(segs[i], NextMarker) <==> links[i].rel == "next"
      ensures AngleGroup(segs[i]) == Some(links[i].url)
    {
      var pad: string := if i == 0 then "" else " ";
      SegmentFacts(pad, links[i]);
    }
    SplitJoin(segs, ',');
    FindInSegments(segs, links);
  }

  /** What the parser sees of one piece `pad<url>; rel="rel"`. */
  lemma SegmentFacts(pad: string, l: Link)
    requires pad == "" || pad == " "
    requires WellFormed(l)
    ensures ',' !in pad + LinkValue(l)
    ensures Contains(pad + LinkValue(l), NextMarker) <==> l.rel == "next"
    ensures AngleGroup(pad + LinkValue(l)) == Some(l.url)
  {
    var a := LinkPrefix(pad, l.url);
    assert pad + LinkValue(l) == a + "\"" + l.rel + "\"";
    QuotedMarker(a, l.rel);
    SegmentGroup(pad, l);
  }

  /** `pad<url>; rel=`: the part of a piece before the quoted relation. */
  function LinkPrefix(pad: string, url: string): (a: string)
    requires pad == "" || pad == " "
    requires ',' !in url && '"' !in url
    ensures ',' !in a && '"' !in a
    ensures |a| >= 4 && a[|a| - 4..] == "rel="
  {
    var a := pad + "<" + url + ">; rel=";
    assert a[|a| - 4..] == "rel=";
    assert forall j :: 0 <= j < |a| ==> a[j] != ',' && a[j] != '"' by {
      forall j | 0 <= j < |a| ensures a[j] != ',' && a[j] != '"' {
        if j < |pad| {
          assert a[j] == pad[j];
        } else if j == |pad| {
          assert a[j] == '<';
        } else if j < |pad| + 1 + |url| {
          assert a[j] == url[j - |pad| - 1];
        } else {
          assert a[j] == ">; rel="[j - |pad| - 1 - |url|];
        }
      }
    }
    a
  }

  lemma {:induction false} FindInSegments(segs: seq<string>, links: seq<Link>)
    requires |segs| == |links|
    requires forall i :: 0 <= i < |segs| ==> (Contains(segs[i], NextMarker) <==> links[i].rel == "next")
    requires forall i :: 0 <= i < |segs| ==> AngleGroup(segs[i]) == Some(links[i].url)
    ensures FindSegment(segs, NextMarker).None? <==> NextTarget(links).None?
    ensures FindSegment(segs, NextMarker).Some? ==>
      AngleGroup(FindSegment(segs, NextMarker).value) == NextTarget(links)
    decreases |segs|
  {
    if |segs| > 0 && !Contains(segs[0], NextMarker) {
      FindInSegments(segs[1..], links[1..]);
    }
  }

  /** A piece `a"rel"`, where `a` ends in `rel=` and neither part holds a
      quote, mentions `rel="next"` exactly when `rel` is "next". */
  lemma QuotedMarker(a: string, rel: string)
    requires '"' !in a && '"' !in rel
    requires |a| >= 4 && a[|a| - 4..] == "rel="
    ensures Contains(a + "\"" + rel + "\"", NextMarker) <==> rel == "next"
  {
    ContainsIff(a + "\"" + rel + "\"", NextMarker);
    if rel == "next" {
      MarkerAtEnd(a);
    }
    if exists k :: OccursAt(a + "\"" + rel + "\"", NextMarker, k) {
      var k :| OccursAt(a + "\"" + rel + "\"", NextMarker, k);
      MarkerPinsRel(a, rel, k);
    }
  }

  lemma MarkerAtEnd(a: string)
    requires |a| >= 4 && a[|a| - 4..] == "rel="
    ensures OccursAt(a + "\"" + "next" + "\"", NextMarker, |a| - 4)
  {
    var seg := a + "\"" + "next" + "\"";
    assert seg[|a| - 4..|a| + 6] == a[|a| - 4..] + "\"next\"";
  }

  lemma MarkerPinsRel(a: string, rel: string, k: int)
    requires '"' !in a && '"' !in rel
    requires OccursAt(a + "\"" + rel + "\"", NextMarker, k)
    ensures rel == "next"
  {
    var seg := a + "\"" + rel + "\"";
    OnlyTwoQuotes(a, rel);
    assert seg[k + 4] == NextMarker[4];
    assert seg[k + 9] == NextMarker[9];
    assert k + 4 == |a| && k + 9 == |a| + |rel| + 1;
    assert rel == seg[|a| + 1..|a| + 1 + |rel|];
    assert seg[k + 5..k + 9] == NextMarker[5..9];
  }

  /** The only quotes of `a"rel"` are the two around `rel`. */
  lemma OnlyTwoQuotes(a: string, rel: string)
    requires '"' !in a && '"' !in rel
    ensures forall j :: 0 <= j < |a| + |rel| + 2 && (a + "\"" + rel + "\"")[j] == '"' ==>
      j == |a| || j == |a| + |rel| + 1
  {
  }

  /** `trim`-free padding before a link does not hide its URL. */
  lemma {:induction false} SegmentGroup(pad: string, l: Link)
    requires '<' !in pad && WellFormed(l)
    ensures AngleGroup(pad + LinkValue(l)) == Some(l.url)
    decreases |pad|
  {
    var s := pad + LinkValue(l);
    if |pad| == 0 {
      assert s == LinkValue(l);
      GroupOfValue(l);
    } else {
      assert s[0] == pad[0];
      assert s[1..] == pad[1..] + LinkValue(l);
      SegmentGroup(pad[1..], l);
    }
  }

  /** The group of a link value is its URL. */
  lemma GroupOfValue(l: Link)
    requires WellFormed(l)
    ensures AngleGroup(LinkValue(l)) == Some(l.url)
  {
    var tail := "; rel=\"" + l.rel + "\"";
    assert LinkValue(l) == ['<'] + (l.url + ['>'] + tail);
    GroupAt(l.url, tail);
  }

  /** A '<' followed by a non-empty '>'-free text and a '>' opens a group
      holding exactly that text. */
  lemma GroupAt(u: string, rest: string)
    requires u != [] && '>' !in u
    ensures AngleGroup(['<'] + (u + ['>'] + rest)) == Some(u)
  {
    var s := ['<'] + (u + ['>'] + rest);
    assert s[1..] == u + ['>'] + rest;
    TakeUntilPrefix(u, rest, '>');
  }

  lemma {:induction false} TakeUntilPrefix(u: string, rest: string, c: char)
    requires c !in u
    ensures TakeUntil(u + [c] + rest, c) == u
    decreases |u|
  {
    if |u| > 0 {
      assert (u + [c] + rest)[1..] == u[1..] + [c] + rest;
      TakeUntilPrefix(u[1..], rest, c);
    }
  }
}
