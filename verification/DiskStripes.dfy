/**
 Striping in kernel/disk.cc, and what becomes of it below the block queue: the queue
 maps a block to its disk and place there, and disk_writev maps the place of the
 request's first block once more.
 */
module DiskStripes {
  import opened DiskMachine

  const STRIPE: nat := 16     // STRIPE_SIZE_BLKS

  /** blknum_to_dev */
  function Dev(disks: nat, b: nat): nat
    requires disks > 0
  {
    (b / STRIPE) % disks
  }

  /** remap_blknum */
  function Remap(disks: nat, b: nat): nat
    requires disks > 0
  {
    STRIPE * ((b / STRIPE) / disks) + b % STRIPE
  }

  /** Different blocks have different places. */
  lemma PlacesDiffer(disks: nat, a: nat, b: nat)
    requires disks > 0 && Dev(disks, a) == Dev(disks, b) && Remap(disks, a) == Remap(disks, b)
    ensures a == b
  {
    assert a % STRIPE == b % STRIPE by { LowPart(disks, a); LowPart(disks, b); }
    var x, y := a / STRIPE, b / STRIPE;
    assert x / disks == y / disks;
    assert x == disks * (x / disks) + x % disks;
    assert y == disks * (y / disks) + y % disks;
  }

  lemma LowPart(disks: nat, b: nat)
    requires disks > 0
    ensures Remap(disks, b) % STRIPE == b % STRIPE && Remap(disks, b) / STRIPE == (b / STRIPE) / disks
  {
  }

  /** Where disk_writev puts index `j` of a request that starts at `start`. */
  function Placed(disks: nat, start: nat, j: nat): Place
    requires disks > 0
  {
    Place(Dev(disks, start), Remap(disks, start) + j)
  }

  /** Where disk_write puts block `b`, and disk_read looks for it. */
  function Home(disks: nat, b: nat): Place
    requires disks > 0
  {
    Placed(disks, b, 0)
  }

  lemma HomesDiffer(disks: nat, a: nat, b: nat)
    requires disks > 0
    ensures Home(disks, a) == Home(disks, b) <==> a == b
  {
    if Home(disks, a) == Home(disks, b) {
      PlacesDiffer(disks, a, b);
    }
  }

  lemma OneDisk(b: nat)
    ensures Dev(1, b) == 0 && Remap(1, b) == b && Home(1, b) == Place(0, b)
  {
  }

  lemma RemapFixed(disks: nat, s: nat)
    requires disks > 0
    ensures Remap(disks, s) == s <==> disks == 1 || s < STRIPE
  {
    var x := s / STRIPE;
    assert s == STRIPE * x + s % STRIPE;
    if disks > 1 && x > 0 {
      assert x / disks < x by { Quotient(x, disks); }
    }
    if disks == 1 {
      assert x / 1 == x;
    }
  }

  lemma Quotient(x: nat, d: nat)
    requires x > 0 && d > 1
    ensures x / d < x
  {
    var q := x / d;
    Product(d, q);
    assert x == d * q + x % d;
  }

  lemma Product(d: nat, q: nat)
    requires d > 1
    ensures d * q >= 2 * q
  {
    assert d * q == 2 * q + (d - 2) * q;
  }

  /** A block written through the queue ends up where disk_read looks for it exactly if there is one
      disk, or the block belongs on the first disk and its request starts in that disk's first
      stripe. */
  lemma QueuedHomeIff(disks: nat, b: nat, start: nat, j: nat)
    requires disks > 0 && start + j == Remap(disks, b)
    ensures Placed(disks, start, j) == Home(disks, b) <==> disks == 1 || (Dev(disks, b) == 0 && start < STRIPE)
  {
    RemapFixed(disks, start);
    if disks == 1 {
      OneDisk(b);
      OneDisk(start);
    } else if start < STRIPE {
      assert start / STRIPE == 0;
    }
  }

  /** For example: with two disks, a request for block 32 alone goes to the wrong disk. */
  lemma TwoDisksExample()
    ensures Home(2, 32) == Place(0, 16) && Placed(2, Remap(2, 32), 0) == Place(1, 0)
  {
  }

  /** With more than one disk, block `b + 16`, wherever its request starts, lands on block `b` of the
      first stripe. */
  lemma SecondStripeLands(disks: nat, b: nat, j: nat)
    requires disks > 1 && j <= b < STRIPE
    ensures Placed(disks, Remap(disks, b + STRIPE) - j, j) == Home(disks, b) != Home(disks, b + STRIPE)
  {
    assert (b + STRIPE) / STRIPE == 1 && 1 / disks == 0 && 1 % disks == 1;
    assert (b - j) / STRIPE == 0 && b / STRIPE == 0;
  }
}
