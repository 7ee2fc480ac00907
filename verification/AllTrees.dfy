/** send_all_trees of gzip.c: the whole header of a dynamic block. */
module AllTrees {
  import opened Bits
  import opened Rfc1951
  import opened BitWriters
  import opened TreeHeader
  import RL = RunLengths
  import ST = SendTree
  import HD = Header

  /** The lengths of the code length code, three bits each, in header order. */
  method SendClLens(w: BitWriter, len: array<nat>, n: nat, ghost cl: seq<nat>)
    requires w.Valid() && |cl| == 19 <= len.Length && n <= 19 && forall s :: 0 <= s < 19 ==> len[s] == cl[s] <= 7
    modifies w, w.outbuf
    ensures w.Valid() && w.Stream() == old(w.Stream()) + HD.ClLensBits(cl, 0, n)
  {
    var rank := 0;
    while rank < n
      invariant 0 <= rank <= n && w.Valid()
      invariant w.Stream() + HD.ClLensBits(cl, rank, n) == old(w.Stream()) + HD.ClLensBits(cl, 0, n)
    {
      HD.RankInverse(0, rank);
      assert Pow2(3) == 8;
      Assoc(w.Stream(), ToBits(cl[CL_ORDER[rank]], 3), HD.ClLensBits(cl, rank + 1, n));
      w.SendBits(len[CL_ORDER[rank]], 3);
      rank := rank + 1;
    }
    assert w.Stream() + [] == w.Stream();
  }

  method SendCounts(w: BitWriter, hlit: nat, hdist: nat, hclen: nat)
    requires w.Valid() && hlit < 32 && hdist < 32 && hclen < 16
    modifies w, w.outbuf
    ensures w.Valid() && w.Stream() == old(w.Stream()) + ToBits(hlit, 5) + ToBits(hdist, 5) + ToBits(hclen, 4)
  {
    assert Pow2(5) == 32 && Pow2(4) == 16;
    w.SendBits(hlit, 5);
    w.SendBits(hdist, 5);
    w.SendBits(hclen, 4);
  }

  lemma Regroup(s: Bits, a: Bits, b: Bits, c: Bits, d: Bits, e: Bits, f: Bits)
    ensures s + a + b + c + d + e + f == s + (a + (b + (c + (d + (e + f)))))
  {
    Assoc(d, e, f);
    Assoc(c, d, e + f);
    Assoc(b, c, d + (e + f));
    Assoc(a, b, c + (d + (e + f)));
    assert s + a + b + c + d + e + f == s + (a + b + c + d + e + f);
    assert a + b + c + d + e + f == a + (b + (c + (d + (e + f))));
  }

  /** The arrays hold the two trees and the code length code about to be sent. */
  ghost predicate TreesReady(llen: seq<nat>, dlen: seq<nat>, clLen: seq<nat>, clCode: seq<nat>,
                             llens: seq<nat>, dlens: seq<nat>, cl: seq<nat>)
  {
    && Guarded(llen, llens) && Guarded(dlen, dlens) && ST.Coded(clLen, clCode, cl)
    && |cl| == 19 <= |clLen| && (forall s :: 0 <= s < 19 ==> cl[s] <= 7)
    && RL.ItemsCoded(cl, RL.Rle(llens, 0, -1)) && RL.ItemsCoded(cl, RL.Rle(dlens, 0, -1))
  }

  method SendAllTrees(w: BitWriter, llen: array<nat>, dlen: array<nat>, clLen: array<nat>, clCode: array<nat>,
                      lcodes: nat, dcodes: nat, blcodes: nat, ghost llens: seq<nat>, ghost dlens: seq<nat>,
                      ghost cl: seq<nat>)
    requires w.Valid() && TreesReady(llen[..], dlen[..], clLen[..], clCode[..], llens, dlens, cl)
    requires lcodes == |llens| && dcodes == |dlens| && 257 <= lcodes <= 286 && 1 <= dcodes <= 30 && 4 <= blcodes <= 19
    modifies w, w.outbuf
    ensures w.Valid() && w.Stream() == old(w.Stream()) + HD.HeaderBits(llens, dlens, cl, blcodes)
  {
    ghost var ll, dd, cc, kk := llen[..], dlen[..], clLen[..], clCode[..];
    forall s | 0 <= s < 19 ensures clLen[s] == cl[s] <= 7 {
      assert ST.CodedOne(cc, kk, cl, s);
    }
    SendPrefix(w, clLen, lcodes - 257, dcodes - 1, blcodes, cl);
    assert llen[..] == ll && dlen[..] == dd && clLen[..] == cc && clCode[..] == kk;
    SendBoth(w, llen, dlen, clLen, clCode, lcodes, dcodes, llens, dlens, cl);
    Regroup(old(w.Stream()), ToBits(|llens| - 257, 5), ToBits(|dlens| - 1, 5), ToBits(blcodes - 4, 4),
           HD.ClLensBits(cl, 0, blcodes), RL.ItemsBits(cl, RL.Rle(llens, 0, -1)),
           RL.ItemsBits(cl, RL.Rle(dlens, 0, -1)));
  }

  method SendPrefix(w: BitWriter, clLen: array<nat>, hlit: nat, hdist: nat, blcodes: nat, ghost cl: seq<nat>)
    requires w.Valid() && hlit < 32 && hdist < 32 && 4 <= blcodes <= 19
    requires |cl| == 19 <= clLen.Length && forall s :: 0 <= s < 19 ==> clLen[s] == cl[s] <= 7
    modifies w, w.outbuf
    ensures w.Valid()
    ensures w.Stream() == old(w.Stream()) + ToBits(hlit, 5) + ToBits(hdist, 5) + ToBits(blcodes - 4, 4)
                          + HD.ClLensBits(cl, 0, blcodes)
  {
    SendCounts(w, hlit, hdist, blcodes - 4);
    SendClLens(w, clLen, blcodes, cl);
  }

  method SendBoth(w: BitWriter, llen: array<nat>, dlen: array<nat>, clLen: array<nat>, clCode: array<nat>,
                  lcodes: nat, dcodes: nat, ghost llens: seq<nat>, ghost dlens: seq<nat>, ghost cl: seq<nat>)
    requires w.Valid() && TreesReady(llen[..], dlen[..], clLen[..], clCode[..], llens, dlens, cl)
    requires lcodes == |llens| && dcodes == |dlens|
    modifies w, w.outbuf
    ensures w.Valid()
    ensures w.Stream() == old(w.Stream()) + RL.ItemsBits(cl, RL.Rle(llens, 0, -1))
                          + RL.ItemsBits(cl, RL.Rle(dlens, 0, -1))
  {
    ghost var dd, cc, kk := dlen[..], clLen[..], clCode[..];
    ST.SendLengths(w, llen, lcodes - 1, llens, clLen, clCode, cl);
    assert dlen[..] == dd && clLen[..] == cc && clCode[..] == kk;
    ST.SendLengths(w, dlen, dcodes - 1, dlens, clLen, clCode, cl);
  }
}
