/** Widening each target site into the design window handed to the sequence fetch. */
module WindowExpander {

  /** One row of the input target table. */
  datatype Site = Site(name: string, chrom: string, start: int, stop: int)

  /** Euclidean division of a non-negative number brackets it between two multiples of d. */
  lemma DivBrackets(m: nat, d: int)
    requires 0 < d
    ensures 0 <= m / d && (m / d) * d <= m < (m / d) * d + d
  {
    var q, r := m / d, m % d;
    assert m == q * d + r;
  }

  /** Python's int() of the quotient n / d: division truncated toward zero. */
  function TruncDiv(n: int, d: int): (q: int)
    requires 0 < d
    ensures 0 <= n ==> 0 <= q && q * d <= n < q * d + d
    ensures n < 0 ==> q <= 0 && q * d - d < n <= q * d
  {
    if 0 <= n then
      DivBrackets(n, d);
      n / d
    else
      DivBrackets(-n, d);
      var q := (-n) / d;
      assert (-q) * d == -(q * d);
      -q
  }

  /** The number of bases added on each side of a site: int(ampliconSize * designSpace / 2),
      with the design-space ratio given exactly as ratioNum / ratioDen. Nothing checks that
      the ratio exceeds 1 or that the amplicon size is positive. */
  function DesignBuffer(ampliconSize: int, ratioNum: int, ratioDen: int): (buffer: int)
    requires 0 < ratioDen
    ensures 0 <= ampliconSize * ratioNum ==>
              0 <= buffer &&
              2 * ratioDen * buffer <= ampliconSize * ratioNum < 2 * ratioDen * (buffer + 1)
    ensures ampliconSize * ratioNum < 0 ==>
              buffer <= 0 &&
              2 * ratioDen * (buffer - 1) < ampliconSize * ratioNum <= 2 * ratioDen * buffer
  {
    TruncDiv(ampliconSize * ratioNum, 2 * ratioDen)
  }

  /** The design window of a site: the same row grown by buffer bases on both sides,
      without clamping (the start may become negative). */
  function Expand(s: Site, buffer: int): (w: Site)
    ensures w.name == s.name && w.chrom == s.chrom
    ensures w.start + w.stop == s.start + s.stop
    ensures w.stop - w.start == s.stop - s.start + 2 * buffer
  {
    s.(start := s.start - buffer, stop := s.stop + buffer)
  }

  /** With a ratio above 1 and a non-empty site, the design window is at least as wide
      as the requested amplicon. */
  lemma WindowCoversAmplicon(s: Site, ampliconSize: int, ratioNum: int, ratioDen: int)
    requires 0 <= ampliconSize && 0 < ratioDen < ratioNum
    requires s.start < s.stop
    ensures var w := Expand(s, DesignBuffer(ampliconSize, ratioNum, ratioDen));
            ampliconSize <= w.stop - w.start
  {
    var buffer := DesignBuffer(ampliconSize, ratioNum, ratioDen);
    var product := ampliconSize * ratioNum;
    assert product < 2 * ratioDen * (buffer + 1);
    MulMonotone(ampliconSize, ratioDen, ratioNum);
    assert ratioDen * ampliconSize < ratioDen * (2 * buffer + 2) by {
      assert 2 * ratioDen * (buffer + 1) == ratioDen * (2 * buffer + 2);
      assert ampliconSize * ratioDen == ratioDen * ampliconSize;
    }
    MulCancel(ratioDen, ampliconSize, 2 * buffer + 2);
  }

  lemma MulMonotone(x: nat, y: int, z: int)
    requires y <= z
    ensures x * y <= x * z
  {
    assert x * z - x * y == x * (z - y);
  }

  lemma MulCancel(q: int, x: int, y: int)
    requires 0 < q && q * x < q * y
    ensures x < y
  {
    if y <= x {
      MulMonotone(q, y, x);
    }
  }

  /** An example: a 20-base site, amplicon 200 and ratio 3/2 give a buffer of 150. */
  lemma ExampleWindow()
    ensures DesignBuffer(200, 3, 2) == 150
    ensures Expand(Site("siteA", "chr1", 1000, 1020), 150) == Site("siteA", "chr1", 850, 1170)
  {
  }

  /** Widens every row of the table in place, one column at a time. */
  method ExpandWindows(bed: array<Site>, buffer: int)
    modifies bed
    ensures forall i :: 0 <= i < bed.Length ==> bed[i] == Expand(old(bed[i]), buffer)
  {
    var a := 0;
    while a < bed.Length
      invariant 0 <= a <= bed.Length
      invariant forall i :: 0 <= i < a ==> bed[i] == Expand(old(bed[i]), buffer)
      invariant forall i :: a <= i < bed.Length ==> bed[i] == old(bed[i])
    {
      bed[a] := bed[a].(start := bed[a].start - buffer);
      bed[a] := bed[a].(stop := bed[a].stop + buffer);
      a := a + 1;
    }
  }
}
