/** The channels that the compiler's address check counts for an item are exactly the
    ones the device writes for it. */
module CheckedChannels {
  import opened Bytes
  import opened Wiring
  import Collisions
  import Render
  import PixelMatrix

  /** A fixture the check sees as `t`: universes from 0, addresses from 1. */
  predicate SameFixture(t: Collisions.Item, f: Render.Fixture) {
    t.Fixture? && f.universe == t.universe as int && f.base + 1 == t.base && f.profile.footprint as int == t.footprint
  }

  /** Byte `a` of universe `u` counts for the fixture exactly when it lies in the
      footprint its writes stay in. */
  lemma FixtureChannels(t: Collisions.Item, f: Render.Fixture, u: nat, a: nat)
    requires Collisions.ItemOk(t) && SameFixture(t, f) && u < 8 && a < 512
    ensures Collisions.Drives(t, 512 * u + a) <==> Render.InFootprint(f, u, a)
  {
    if u < f.universe {
      assert 512 * (u + 1) <= 512 * f.universe;
    } else if u > f.universe {
      assert 512 * (f.universe + 1) <= 512 * u;
    }
  }

  /** A matrix the check sees as `t`. */
  predicate SameMatrix(t: Collisions.Item, m: MatrixMap) {
    t.Matrix? && m.startUniverse == t.startUniverse && m.startChannel as int + 1 == t.startChannel &&
    m.width == t.width && m.height == t.height
  }

  /** Every component of every pixel counts, as far as universes go ... */
  lemma MatrixCounts(t: Collisions.Item, m: MatrixMap, x: nat, y: nat, k: nat)
    requires Collisions.ItemOk(t) && SameMatrix(t, m) && InGrid(m, x, y) && k < 3 && Area(m) <= 0x1_0000
    ensures Collisions.Drives(t, PixelMatrix.Place(m, x, y, k)) <==> PixelMatrix.Place(m, x, y, k) < 131072
  {
    var i := WireIndex(m, x, y);
    assert i < Area(m);
  }

  /** ... and nothing else does. */
  lemma CountedIsPixel(t: Collisions.Item, m: MatrixMap, g: int) returns (x: nat, y: nat, k: nat)
    requires Collisions.ItemOk(t) && SameMatrix(t, m) && Collisions.Drives(t, g) && Area(m) <= 0x1_0000
    ensures InGrid(m, x, y) && k < 3 && PixelMatrix.Place(m, x, y, k) == g
  {
    var c := g - (512 * (t.startUniverse as int) + t.startChannel - 1);
    assert c == g - Start(m) && 0 <= c < 3 * Area(m);
    UnwireThenWire(m, c / 3);
    var (p, q) := Unwire(m, c / 3);
    x, y, k := p, q, c % 3;
  }
}
