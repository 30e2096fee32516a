/** The example of RFC 1321, appendix A.5, for the empty message. */
module Rfc1321Example {
  import opened BlockHash
  import opened Rfc1321

  function State(a: bv32, b: bv32, c: bv32, d: bv32): Chain { Chain(Word(a), Word(b), Word(c), Word(d)) }

  /** The words of the block that the empty message is padded to. */
  predicate OnlyFiller(x: Words) { x[0] == Word(0x80) && forall k :: 0 < k < 16 ==> x[k] == Word(0) }

  lemma Operations0To1(x: Words)
    requires OnlyFiller(x)
    ensures Operation(x, 0, State(0x67452301, 0xefcdab89, 0x98badcfe, 0x10325476))
         == State(0x10325476, 0xa5202774, 0xefcdab89, 0x98badcfe)
    ensures Operation(x, 1, State(0x10325476, 0xa5202774, 0xefcdab89, 0x98badcfe))
         == State(0x98badcfe, 0xf59592dd, 0xa5202774, 0xefcdab89)
  {}

  lemma Operations2To3(x: Words)
    requires OnlyFiller(x)
    ensures Operation(x, 2, State(0x98badcfe, 0xf59592dd, 0xa5202774, 0xefcdab89))
         == State(0xefcdab89, 0xe7f06b23, 0xf59592dd, 0xa5202774)
    ensures Operation(x, 3, State(0xefcdab89, 0xe7f06b23, 0xf59592dd, 0xa5202774))
         == State(0xa5202774, 0x1b163203, 0xe7f06b23, 0xf59592dd)
  {}

  lemma Operations4To5(x: Words)
    requires OnlyFiller(x)
    ensures Operation(x, 4, State(0xa5202774, 0x1b163203, 0xe7f06b23, 0xf59592dd))
         == State(0xf59592dd, 0x32033344, 0x1b163203, 0xe7f06b23)
    ensures Operation(x, 5, State(0xf59592dd, 0x32033344, 0x1b163203, 0xe7f06b23))
         == State(0xe7f06b23, 0x2f35d494, 0x32033344, 0x1b163203)
  {}

  lemma Operations6To7(x: Words)
    requires OnlyFiller(x)
    ensures Operation(x, 6, State(0xe7f06b23, 0x2f35d494, 0x32033344, 0x1b163203))
         == State(0x1b163203, 0xf5b158db, 0x2f35d494, 0x32033344)
    ensures Operation(x, 7, State(0x1b163203, 0xf5b158db, 0x2f35d494, 0x32033344))
         == State(0x32033344, 0x9bc13ce9, 0xf5b158db, 0x2f35d494)
  {}

  lemma Operations8To9(x: Words)
    requires OnlyFiller(x)
    ensures Operation(x, 8, State(0x32033344, 0x9bc13ce9, 0xf5b158db, 0x2f35d494))
         == State(0x2f35d494, 0x3893b991, 0x9bc13ce9, 0xf5b158db)
    ensures Operation(x, 9, State(0x2f35d494, 0x3893b991, 0x9bc13ce9, 0xf5b158db))
         == State(0xf5b158db, 0xfce4a312, 0x3893b991, 0x9bc13ce9)
  {}

  lemma Operations10To11(x: Words)
    requires OnlyFiller(x)
    ensures Operation(x, 10, State(0xf5b158db, 0xfce4a312, 0x3893b991, 0x9bc13ce9))
         == State(0x9bc13ce9, 0xe1ef0576, 0xfce4a312, 0x3893b991)
    ensures Operation(x, 11, State(0x9bc13ce9, 0xe1ef0576, 0xfce4a312, 0x3893b991))
         == State(0x3893b991, 0x70768a29, 0xe1ef0576, 0xfce4a312)
  {}

  lemma Operations12To13(x: Words)
    requires OnlyFiller(x)
    ensures Operation(x, 12, State(0x3893b991, 0x70768a29, 0xe1ef0576, 0xfce4a312))
         == State(0xfce4a312, 0xf56c7cf1, 0x70768a29, 0xe1ef0576)
    ensures Operation(x, 13, State(0xfce4a312, 0xf56c7cf1, 0x70768a29, 0xe1ef0576))
         == State(0xe1ef0576, 0x374943a7, 0xf56c7cf1, 0x70768a29)
  {}

  lemma Operations14To15(x: Words)
    requires OnlyFiller(x)
    ensures Operation(x, 14, State(0xe1ef0576, 0x374943a7, 0xf56c7cf1, 0x70768a29))
         == State(0x70768a29, 0x5aa53f75, 0x374943a7, 0xf56c7cf1)
    ensures Operation(x, 15, State(0x70768a29, 0x5aa53f75, 0x374943a7, 0xf56c7cf1))
         == State(0xf56c7cf1, 0xd6819c6a, 0x5aa53f75, 0x374943a7)
  {}

  lemma Operations16To17(x: Words)
    requires OnlyFiller(x)
    ensures Operation(x, 16, State(0xf56c7cf1, 0xd6819c6a, 0x5aa53f75, 0x374943a7))
         == State(0x374943a7, 0x1c7d7513, 0xd6819c6a, 0x5aa53f75)
    ensures Operation(x, 17, State(0x374943a7, 0x1c7d7513, 0xd6819c6a, 0x5aa53f75))
         == State(0x5aa53f75, 0x7bd57a3a, 0x1c7d7513, 0xd6819c6a)
  {}

  lemma Operations18To19(x: Words)
    requires OnlyFiller(x)
    ensures Operation(x, 18, State(0x5aa53f75, 0x7bd57a3a, 0x1c7d7513, 0xd6819c6a))
         == State(0xd6819c6a, 0xc095f13a, 0x7bd57a3a, 0x1c7d7513)
    ensures Operation(x, 19, State(0xd6819c6a, 0xc095f13a, 0x7bd57a3a, 0x1c7d7513))
         == State(0x1c7d7513, 0xbd782e17, 0xc095f13a, 0x7bd57a3a)
  {}

  lemma Operations20To21(x: Words)
    requires OnlyFiller(x)
    ensures Operation(x, 20, State(0x1c7d7513, 0xbd782e17, 0xc095f13a, 0x7bd57a3a))
         == State(0x7bd57a3a, 0x3d1e3e6c, 0xbd782e17, 0xc095f13a)
    ensures Operation(x, 21, State(0x7bd57a3a, 0x3d1e3e6c, 0xbd782e17, 0xc095f13a))
         == State(0xc095f13a, 0x68b7b3e3, 0x3d1e3e6c, 0xbd782e17)
  {}

  lemma Operations22To23(x: Words)
    requires OnlyFiller(x)
    ensures Operation(x, 22, State(0xc095f13a, 0x68b7b3e3, 0x3d1e3e6c, 0xbd782e17))
         == State(0xbd782e17, 0xeb41643e, 0x68b7b3e3, 0x3d1e3e6c)
    ensures Operation(x, 23, State(0xbd782e17, 0xeb41643e, 0x68b7b3e3, 0x3d1e3e6c))
         == State(0x3d1e3e6c, 0xe422531a, 0xeb41643e, 0x68b7b3e3)
  {}

  lemma Operations24To25(x: Words)
    requires OnlyFiller(x)
    ensures Operation(x, 24, State(0x3d1e3e6c, 0xe422531a, 0xeb41643e, 0x68b7b3e3))
         == State(0x68b7b3e3, 0x306ec122, 0xe422531a, 0xeb41643e)
    ensures Operation(x, 25, State(0x68b7b3e3, 0x306ec122, 0xe422531a, 0xeb41643e))
         == State(0xeb41643e, 0xd28c77c2, 0x306ec122, 0xe422531a)
  {}

  lemma Operations26To27(x: Words)
    requires OnlyFiller(x)
    ensures Operation(x, 26, State(0xeb41643e, 0xd28c77c2, 0x306ec122, 0xe422531a))
         == State(0xe422531a, 0xa3c663da, 0xd28c77c2, 0x306ec122)
    ensures Operation(x, 27, State(0xe422531a, 0xa3c663da, 0xd28c77c2, 0x306ec122))
         == State(0x306ec122, 0xa0572807, 0xa3c663da, 0xd28c77c2)
  {}

  lemma Operations28To29(x: Words)
    requires OnlyFiller(x)
    ensures Operation(x, 28, State(0x306ec122, 0xa0572807, 0xa3c663da, 0xd28c77c2))
         == State(0xd28c77c2, 0x13707036, 0xa0572807, 0xa3c663da)
    ensures Operation(x, 29, State(0xd28c77c2, 0x13707036, 0xa0572807, 0xa3c663da))
         == State(0xa3c663da, 0xae7813db, 0x13707036, 0xa0572807)
  {}

  lemma Operations30To31(x: Words)
    requires OnlyFiller(x)
    ensures Operation(x, 30, State(0xa3c663da, 0xae7813db, 0x13707036, 0xa0572807))
         == State(0xa0572807, 0x1c31c384, 0xae7813db, 0x13707036)
    ensures Operation(x, 31, State(0xa0572807, 0x1c31c384, 0xae7813db, 0x13707036))
         == State(0x13707036, 0xa2205f1f, 0x1c31c384, 0xae7813db)
  {}

  lemma Operations32To33(x: Words)
    requires OnlyFiller(x)
    ensures Operation(x, 32, State(0x13707036, 0xa2205f1f, 0x1c31c384, 0xae7813db))
         == State(0xae7813db, 0xdf63eaa1, 0xa2205f1f, 0x1c31c384)
    ensures Operation(x, 33, State(0xae7813db, 0xdf63eaa1, 0xa2205f1f, 0x1c31c384))
         == State(0x1c31c384, 0xc3689f5b, 0xdf63eaa1, 0xa2205f1f)
  {}

  lemma Operations34To35(x: Words)
    requires OnlyFiller(x)
    ensures Operation(x, 34, State(0x1c31c384, 0xc3689f5b, 0xdf63eaa1, 0xa2205f1f))
         == State(0xa2205f1f, 0x12f3e755, 0xc3689f5b, 0xdf63eaa1)
    ensures Operation(x, 35, State(0xa2205f1f, 0x12f3e755, 0xc3689f5b, 0xdf63eaa1))
         == State(0xdf63eaa1, 0x004b6669, 0x12f3e755, 0xc3689f5b)
  {}

  lemma Operations36To37(x: Words)
    requires OnlyFiller(x)
    ensures Operation(x, 36, State(0xdf63eaa1, 0x004b6669, 0x12f3e755, 0xc3689f5b))
         == State(0xc3689f5b, 0x5f7a9b2e, 0x004b6669, 0x12f3e755)
    ensures Operation(x, 37, State(0xc3689f5b, 0x5f7a9b2e, 0x004b6669, 0x12f3e755))
         == State(0x12f3e755, 0xabc34e16, 0x5f7a9b2e, 0x004b6669)
  {}

  lemma Operations38To39(x: Words)
    requires OnlyFiller(x)
    ensures Operation(x, 38, State(0x12f3e755, 0xabc34e16, 0x5f7a9b2e, 0x004b6669))
         == State(0x004b6669, 0x91ca4cb7, 0xabc34e16, 0x5f7a9b2e)
    ensures Operation(x, 39, State(0x004b6669, 0x91ca4cb7, 0xabc34e16, 0x5f7a9b2e))
         == State(0x5f7a9b2e, 0xc5dc8c15, 0x91ca4cb7, 0xabc34e16)
  {}

  lemma Operations40To41(x: Words)
    requires OnlyFiller(x)
    ensures Operation(x, 40, State(0x5f7a9b2e, 0xc5dc8c15, 0x91ca4cb7, 0xabc34e16))
         == State(0xabc34e16, 0x4497169d, 0xc5dc8c15, 0x91ca4cb7)
    ensures Operation(x, 41, State(0xabc34e16, 0x4497169d, 0xc5dc8c15, 0x91ca4cb7))
         == State(0x91ca4cb7, 0x76fd93d4, 0x4497169d, 0xc5dc8c15)
  {}

  lemma Operations42To43(x: Words)
    requires OnlyFiller(x)
    ensures Operation(x, 42, State(0x91ca4cb7, 0x76fd93d4, 0x4497169d, 0xc5dc8c15))
         == State(0xc5dc8c15, 0xfd95f243, 0x76fd93d4, 0x4497169d)
    ensures Operation(x, 43, State(0xc5dc8c15, 0xfd95f243, 0x76fd93d4, 0x4497169d))
         == State(0x4497169d, 0x0fe32453, 0xfd95f243, 0x76fd93d4)
  {}

  lemma Operations44To45(x: Words)
    requires OnlyFiller(x)
    ensures Operation(x, 44, State(0x4497169d, 0x0fe32453, 0xfd95f243, 0x76fd93d4))
         == State(0x76fd93d4, 0x3f55edfd, 0x0fe32453, 0xfd95f243)
    ensures Operation(x, 45, State(0x76fd93d4, 0x3f55edfd, 0x0fe32453, 0xfd95f243))
         == State(0xfd95f243, 0x22a31f54, 0x3f55edfd, 0x0fe32453)
  {}

  lemma Operations46To47(x: Words)
    requires OnlyFiller(x)
    ensures Operation(x, 46, State(0xfd95f243, 0x22a31f54, 0x3f55edfd, 0x0fe32453))
         == State(0x0fe32453, 0x68d84ea2, 0x22a31f54, 0x3f55edfd)
    ensures Operation(x, 47, State(0x0fe32453, 0x68d84ea2, 0x22a31f54, 0x3f55edfd))
         == State(0x3f55edfd, 0xca7d2dbd, 0x68d84ea2, 0x22a31f54)
  {}

  lemma Operations48To49(x: Words)
    requires OnlyFiller(x)
    ensures Operation(x, 48, State(0x3f55edfd, 0xca7d2dbd, 0x68d84ea2, 0x22a31f54))
         == State(0x22a31f54, 0x93aa2577, 0xca7d2dbd, 0x68d84ea2)
    ensures Operation(x, 49, State(0x22a31f54, 0x93aa2577, 0xca7d2dbd, 0x68d84ea2))
         == State(0x68d84ea2, 0x1688dc85, 0x93aa2577, 0xca7d2dbd)
  {}

  lemma Operations50To51(x: Words)
    requires OnlyFiller(x)
    ensures Operation(x, 50, State(0x68d84ea2, 0x1688dc85, 0x93aa2577, 0xca7d2dbd))
         == State(0xca7d2dbd, 0xcd85b8cb, 0x1688dc85, 0x93aa2577)
    ensures Operation(x, 51, State(0xca7d2dbd, 0xcd85b8cb, 0x1688dc85, 0x93aa2577))
         == State(0x93aa2577, 0x561e0689, 0xcd85b8cb, 0x1688dc85)
  {}

  lemma Operations52To53(x: Words)
    requires OnlyFiller(x)
    ensures Operation(x, 52, State(0x93aa2577, 0x561e0689, 0xcd85b8cb, 0x1688dc85))
         == State(0x1688dc85, 0x5625a114, 0x561e0689, 0xcd85b8cb)
    ensures Operation(x, 53, State(0x1688dc85, 0x5625a114, 0x561e0689, 0xcd85b8cb))
         == State(0xcd85b8cb, 0x3450f42b, 0x5625a114, 0x561e0689)
  {}

  lemma Operations54To55(x: Words)
    requires OnlyFiller(x)
    ensures Operation(x, 54, State(0xcd85b8cb, 0x3450f42b, 0x5625a114, 0x561e0689))
         == State(0x561e0689, 0x392ad0d0, 0x3450f42b, 0x5625a114)
    ensures Operation(x, 55, State(0x561e0689, 0x392ad0d0, 0x3450f42b, 0x5625a114))
         == State(0x5625a114, 0x1e77fa61, 0x392ad0d0, 0x3450f42b)
  {}

  lemma Operations56To57(x: Words)
    requires OnlyFiller(x)
    ensures Operation(x, 56, State(0x5625a114, 0x1e77fa61, 0x392ad0d0, 0x3450f42b))
         == State(0x3450f42b, 0x474a9c8c, 0x1e77fa61, 0x392ad0d0)
    ensures Operation(x, 57, State(0x3450f42b, 0x474a9c8c, 0x1e77fa61, 0x392ad0d0))
         == State(0x392ad0d0, 0xdfce00bc, 0x474a9c8c, 0x1e77fa61)
  {}

  lemma Operations58To59(x: Words)
    requires OnlyFiller(x)
    ensures Operation(x, 58, State(0x392ad0d0, 0xdfce00bc, 0x474a9c8c, 0x1e77fa61))
         == State(0x1e77fa61, 0x36594b14, 0xdfce00bc, 0x474a9c8c)
    ensures Operation(x, 59, State(0x1e77fa61, 0x36594b14, 0xdfce00bc, 0x474a9c8c))
         == State(0x474a9c8c, 0x30130182, 0x36594b14, 0xdfce00bc)
  {}

  lemma Operations60To61(x: Words)
    requires OnlyFiller(x)
    ensures Operation(x, 60, State(0x474a9c8c, 0x30130182, 0x36594b14, 0xdfce00bc))
         == State(0xdfce00bc, 0x7246fad3, 0x30130182, 0x36594b14)
    ensures Operation(x, 61, State(0xdfce00bc, 0x7246fad3, 0x30130182, 0x36594b14))
         == State(0x36594b14, 0x6e10a476, 0x7246fad3, 0x30130182)
  {}

  lemma Operations62To63(x: Words)
    requires OnlyFiller(x)
    ensures Operation(x, 62, State(0x36594b14, 0x6e10a476, 0x7246fad3, 0x30130182))
         == State(0x30130182, 0xff4ea3eb, 0x6e10a476, 0x7246fad3)
    ensures Operation(x, 63, State(0x30130182, 0xff4ea3eb, 0x6e10a476, 0x7246fad3))
         == State(0x7246fad3, 0x14e45506, 0xff4ea3eb, 0x6e10a476)
  {}

  lemma Round1(x: Words)
    requires OnlyFiller(x) && Operations(x, 0, INITIAL) == State(0x67452301, 0xefcdab89, 0x98badcfe, 0x10325476)
    ensures Operations(x, 16, INITIAL) == State(0xf56c7cf1, 0xd6819c6a, 0x5aa53f75, 0x374943a7)
  {
    hide Operation, State, OnlyFiller;
    Operations0To1(x);
    assert Operations(x, 1, INITIAL) == State(0x10325476, 0xa5202774, 0xefcdab89, 0x98badcfe);
    assert Operations(x, 2, INITIAL) == State(0x98badcfe, 0xf59592dd, 0xa5202774, 0xefcdab89);
    Operations2To3(x);
    assert Operations(x, 3, INITIAL) == State(0xefcdab89, 0xe7f06b23, 0xf59592dd, 0xa5202774);
    assert Operations(x, 4, INITIAL) == State(0xa5202774, 0x1b163203, 0xe7f06b23, 0xf59592dd);
    Operations4To5(x);
    assert Operations(x, 5, INITIAL) == State(0xf59592dd, 0x32033344, 0x1b163203, 0xe7f06b23);
    assert Operations(x, 6, INITIAL) == State(0xe7f06b23, 0x2f35d494, 0x32033344, 0x1b163203);
    Operations6To7(x);
    assert Operations(x, 7, INITIAL) == State(0x1b163203, 0xf5b158db, 0x2f35d494, 0x32033344);
    assert Operations(x, 8, INITIAL) == State(0x32033344, 0x9bc13ce9, 0xf5b158db, 0x2f35d494);
    Operations8To9(x);
    assert Operations(x, 9, INITIAL) == State(0x2f35d494, 0x3893b991, 0x9bc13ce9, 0xf5b158db);
    assert Operations(x, 10, INITIAL) == State(0xf5b158db, 0xfce4a312, 0x3893b991, 0x9bc13ce9);
    Operations10To11(x);
    assert Operations(x, 11, INITIAL) == State(0x9bc13ce9, 0xe1ef0576, 0xfce4a312, 0x3893b991);
    assert Operations(x, 12, INITIAL) == State(0x3893b991, 0x70768a29, 0xe1ef0576, 0xfce4a312);
    Operations12To13(x);
    assert Operations(x, 13, INITIAL) == State(0xfce4a312, 0xf56c7cf1, 0x70768a29, 0xe1ef0576);
    assert Operations(x, 14, INITIAL) == State(0xe1ef0576, 0x374943a7, 0xf56c7cf1, 0x70768a29);
    Operations14To15(x);
    assert Operations(x, 15, INITIAL) == State(0x70768a29, 0x5aa53f75, 0x374943a7, 0xf56c7cf1);
    assert Operations(x, 16, INITIAL) == State(0xf56c7cf1, 0xd6819c6a, 0x5aa53f75, 0x374943a7);
  }

  lemma Round2(x: Words)
    requires OnlyFiller(x) && Operations(x, 16, INITIAL) == State(0xf56c7cf1, 0xd6819c6a, 0x5aa53f75, 0x374943a7)
    ensures Operations(x, 32, INITIAL) == State(0x13707036, 0xa2205f1f, 0x1c31c384, 0xae7813db)
  {
    hide Operation, State, OnlyFiller;
    Operations16To17(x);
    assert Operations(x, 17, INITIAL) == State(0x374943a7, 0x1c7d7513, 0xd6819c6a, 0x5aa53f75);
    assert Operations(x, 18, INITIAL) == State(0x5aa53f75, 0x7bd57a3a, 0x1c7d7513, 0xd6819c6a);
    Operations18To19(x);
    assert Operations(x, 19, INITIAL) == State(0xd6819c6a, 0xc095f13a, 0x7bd57a3a, 0x1c7d7513);
    assert Operations(x, 20, INITIAL) == State(0x1c7d7513, 0xbd782e17, 0xc095f13a, 0x7bd57a3a);
    Operations20To21(x);
    assert Operations(x, 21, INITIAL) == State(0x7bd57a3a, 0x3d1e3e6c, 0xbd782e17, 0xc095f13a);
    assert Operations(x, 22, INITIAL) == State(0xc095f13a, 0x68b7b3e3, 0x3d1e3e6c, 0xbd782e17);
    Operations22To23(x);
    assert Operations(x, 23, INITIAL) == State(0xbd782e17, 0xeb41643e, 0x68b7b3e3, 0x3d1e3e6c);
    assert Operations(x, 24, INITIAL) == State(0x3d1e3e6c, 0xe422531a, 0xeb41643e, 0x68b7b3e3);
    Operations24To25(x);
    assert Operations(x, 25, INITIAL) == State(0x68b7b3e3, 0x306ec122, 0xe422531a, 0xeb41643e);
    assert Operations(x, 26, INITIAL) == State(0xeb41643e, 0xd28c77c2, 0x306ec122, 0xe422531a);
    Operations26To27(x);
    assert Operations(x, 27, INITIAL) == State(0xe422531a, 0xa3c663da, 0xd28c77c2, 0x306ec122);
    assert Operations(x, 28, INITIAL) == State(0x306ec122, 0xa0572807, 0xa3c663da, 0xd28c77c2);
    Operations28To29(x);
    assert Operations(x, 29, INITIAL) == State(0xd28c77c2, 0x13707036, 0xa0572807, 0xa3c663da);
    assert Operations(x, 30, INITIAL) == State(0xa3c663da, 0xae7813db, 0x13707036, 0xa0572807);
    Operations30To31(x);
    assert Operations(x, 31, INITIAL) == State(0xa0572807, 0x1c31c384, 0xae7813db, 0x13707036);
    assert Operations(x, 32, INITIAL) == State(0x13707036, 0xa2205f1f, 0x1c31c384, 0xae7813db);
  }

  lemma Round3(x: Words)
    requires OnlyFiller(x) && Operations(x, 32, INITIAL) == State(0x13707036, 0xa2205f1f, 0x1c31c384, 0xae7813db)
    ensures Operations(x, 48, INITIAL) == State(0x3f55edfd, 0xca7d2dbd, 0x68d84ea2, 0x22a31f54)
  {
    hide Operation, State, OnlyFiller;
    Operations32To33(x);
    assert Operations(x, 33, INITIAL) == State(0xae7813db, 0xdf63eaa1, 0xa2205f1f, 0x1c31c384);
    assert Operations(x, 34, INITIAL) == State(0x1c31c384, 0xc3689f5b, 0xdf63eaa1, 0xa2205f1f);
    Operations34To35(x);
    assert Operations(x, 35, INITIAL) == State(0xa2205f1f, 0x12f3e755, 0xc3689f5b, 0xdf63eaa1);
    assert Operations(x, 36, INITIAL) == State(0xdf63eaa1, 0x004b6669, 0x12f3e755, 0xc3689f5b);
    Operations36To37(x);
    assert Operations(x, 37, INITIAL) == State(0xc3689f5b, 0x5f7a9b2e, 0x004b6669, 0x12f3e755);
    assert Operations(x, 38, INITIAL) == State(0x12f3e755, 0xabc34e16, 0x5f7a9b2e, 0x004b6669);
    Operations38To39(x);
    assert Operations(x, 39, INITIAL) == State(0x004b6669, 0x91ca4cb7, 0xabc34e16, 0x5f7a9b2e);
    assert Operations(x, 40, INITIAL) == State(0x5f7a9b2e, 0xc5dc8c15, 0x91ca4cb7, 0xabc34e16);
    Operations40To41(x);
    assert Operations(x, 41, INITIAL) == State(0xabc34e16, 0x4497169d, 0xc5dc8c15, 0x91ca4cb7);
    assert Operations(x, 42, INITIAL) == State(0x91ca4cb7, 0x76fd93d4, 0x4497169d, 0xc5dc8c15);
    Operations42To43(x);
    assert Operations(x, 43, INITIAL) == State(0xc5dc8c15, 0xfd95f243, 0x76fd93d4, 0x4497169d);
    assert Operations(x, 44, INITIAL) == State(0x4497169d, 0x0fe32453, 0xfd95f243, 0x76fd93d4);
    Operations44To45(x);
    assert Operations(x, 45, INITIAL) == State(0x76fd93d4, 0x3f55edfd, 0x0fe32453, 0xfd95f243);
    assert Operations(x, 46, INITIAL) == State(0xfd95f243, 0x22a31f54, 0x3f55edfd, 0x0fe32453);
    Operations46To47(x);
    assert Operations(x, 47, INITIAL) == State(0x0fe32453, 0x68d84ea2, 0x22a31f54, 0x3f55edfd);
    assert Operations(x, 48, INITIAL) == State(0x3f55edfd, 0xca7d2dbd, 0x68d84ea2, 0x22a31f54);
  }

  lemma Round4(x: Words)
    requires OnlyFiller(x) && Operations(x, 48, INITIAL) == State(0x3f55edfd, 0xca7d2dbd, 0x68d84ea2, 0x22a31f54)
    ensures Operations(x, 64, INITIAL) == State(0x7246fad3, 0x14e45506, 0xff4ea3eb, 0x6e10a476)
  {
    hide Operation, State, OnlyFiller;
    Operations48To49(x);
    assert Operations(x, 49, INITIAL) == State(0x22a31f54, 0x93aa2577, 0xca7d2dbd, 0x68d84ea2);
    assert Operations(x, 50, INITIAL) == State(0x68d84ea2, 0x1688dc85, 0x93aa2577, 0xca7d2dbd);
    Operations50To51(x);
    assert Operations(x, 51, INITIAL) == State(0xca7d2dbd, 0xcd85b8cb, 0x1688dc85, 0x93aa2577);
    assert Operations(x, 52, INITIAL) == State(0x93aa2577, 0x561e0689, 0xcd85b8cb, 0x1688dc85);
    Operations52To53(x);
    assert Operations(x, 53, INITIAL) == State(0x1688dc85, 0x5625a114, 0x561e0689, 0xcd85b8cb);
    assert Operations(x, 54, INITIAL) == State(0xcd85b8cb, 0x3450f42b, 0x5625a114, 0x561e0689);
    Operations54To55(x);
    assert Operations(x, 55, INITIAL) == State(0x561e0689, 0x392ad0d0, 0x3450f42b, 0x5625a114);
    assert Operations(x, 56, INITIAL) == State(0x5625a114, 0x1e77fa61, 0x392ad0d0, 0x3450f42b);
    Operations56To57(x);
    assert Operations(x, 57, INITIAL) == State(0x3450f42b, 0x474a9c8c, 0x1e77fa61, 0x392ad0d0);
    assert Operations(x, 58, INITIAL) == State(0x392ad0d0, 0xdfce00bc, 0x474a9c8c, 0x1e77fa61);
    Operations58To59(x);
    assert Operations(x, 59, INITIAL) == State(0x1e77fa61, 0x36594b14, 0xdfce00bc, 0x474a9c8c);
    assert Operations(x, 60, INITIAL) == State(0x474a9c8c, 0x30130182, 0x36594b14, 0xdfce00bc);
    Operations60To61(x);
    assert Operations(x, 61, INITIAL) == State(0xdfce00bc, 0x7246fad3, 0x30130182, 0x36594b14);
    assert Operations(x, 62, INITIAL) == State(0x36594b14, 0x6e10a476, 0x7246fad3, 0x30130182);
    Operations62To63(x);
    assert Operations(x, 63, INITIAL) == State(0x30130182, 0xff4ea3eb, 0x6e10a476, 0x7246fad3);
    assert Operations(x, 64, INITIAL) == State(0x7246fad3, 0x14e45506, 0xff4ea3eb, 0x6e10a476);
  }

  lemma Sums(x: Words)
    requires Operations(x, 64, INITIAL) == State(0x7246fad3, 0x14e45506, 0xff4ea3eb, 0x6e10a476)
    ensures CompressWords(INITIAL, x) == State(0xd98c1dd4, 0x04b2008f, 0x980980e9, 0x7e42f8ec)
  {
    hide Operations;
  }

  lemma Compressed(x: Words)
    requires OnlyFiller(x)
    ensures CompressWords(INITIAL, x) == State(0xd98c1dd4, 0x04b2008f, 0x980980e9, 0x7e42f8ec)
  {
    assert Operations(x, 0, INITIAL) == State(0x67452301, 0xefcdab89, 0x98badcfe, 0x10325476);
    hide *;
    Round1(x);
    Round2(x);
    Round3(x);
    Round4(x);
    Sums(x);
  }

  lemma NoLength()
    ensures LittleEndianLength(0) == Zeros(8)
  {}

  lemma PaddedEmpty()
    ensures Pad([]) == [0x80] + Zeros(63)
  {
    hide LittleEndianLength;
    NoLength();
    assert Filler(0) == [0x80] + Zeros(55);
  }

  lemma WordsOfEmpty(m: Block)
    requires m == [0x80] + Zeros(63)
    ensures OnlyFiller(BlockWords(m))
  {
    assert Join(0x80, 0, 0, 0) == 0x80 && Join(0, 0, 0, 0) == 0;
    hide Join;
  }

  const DIGEST: seq<Byte> := [0xd4, 0x1d, 0x8c, 0xd9, 0x8f, 0x00, 0xb2, 0x04,
                              0xe9, 0x80, 0x09, 0x98, 0xec, 0xf8, 0x42, 0x7e]

  lemma BytesOfResult()
    ensures ChainBytes(State(0xd98c1dd4, 0x04b2008f, 0x980980e9, 0x7e42f8ec))
         == DIGEST
  {}

  /** Section 3.4 lists the word that each operation uses. */
  const ROUND2 := [1, 6, 11, 0, 5, 10, 15, 4, 9, 14, 3, 8, 13, 2, 7, 12]
  const ROUND3 := [5, 8, 11, 14, 1, 4, 7, 10, 13, 0, 3, 6, 9, 12, 15, 2]
  const ROUND4 := [0, 7, 14, 5, 12, 3, 10, 1, 8, 15, 6, 13, 4, 11, 2, 9]

  lemma Round2InOrder(j: nat)
    requires j < 16
    ensures Index2(j) == ROUND2[j]
  {
    if j < 4 {
    } else if j < 8 {
    } else if j < 12 {
    } else {
    }
  }

  lemma Round3InOrder(j: nat)
    requires j < 16
    ensures Index3(j) == ROUND3[j]
  {
    if j < 4 {
    } else if j < 8 {
    } else if j < 12 {
    } else {
    }
  }

  lemma Round4InOrder(j: nat)
    requires j < 16
    ensures Index4(j) == ROUND4[j]
  {
    if j < 4 {
    } else if j < 8 {
    } else if j < 12 {
    } else {
    }
  }

  lemma WordsInOrder(j: nat)
    requires j < 16
    ensures Index(j) == j && Index(16 + j) == ROUND2[j] && Index(32 + j) == ROUND3[j] && Index(48 + j) == ROUND4[j]
  {
    hide Index2, Index3, Index4;
    Round2InOrder(j);
    Round3InOrder(j);
    Round4InOrder(j);
  }

  /** MD5 ("") = d41d8cd98f00b204e9800998ecf8427e */
  lemma DigestOfEmpty()
    ensures Digest([]) == DIGEST
  {
    var m: Block := [0x80] + Zeros(63);
    PaddedEmpty();
    WordsOfEmpty(m);
    Compressed(BlockWords(m));
    BytesOfResult();
    hide Compress, ChainBytes, Pad, BlockWords, OnlyFiller, State;
    FoldOneMore(Compress, INITIAL, [], m);
    assert [] + m == m;
    OneBlock(m);
  }

  lemma OneBlock(m: Block)
    ensures HashValue(m) == CompressWords(INITIAL, BlockWords(m))
  {
    hide CompressWords, BlockWords;
    FoldOneMore(Compress, INITIAL, [], m);
    assert [] + m == m;
  }
}

/** Example A.1 of FIPS PUB 180-2, the one-block message "abc"; FIPS PUB 180-3 has the same algorithm. */
module Fips180Example {
  import opened BlockHash
  import opened Fips180

  function State(a: bv32, b: bv32, c: bv32, d: bv32, e: bv32): Vars {
    Vars(Word(a), Word(b), Word(c), Word(d), Word(e))
  }

  /** The block that "abc" is padded to. */
  predicate IsAbc(m: Block) { m == [0x61, 0x62, 0x63, 0x80] + Zeros(59) + [24] }

  lemma Words0To15(m: Block)
    requires IsAbc(m)
    ensures Wt(m, 0) == Word(0x61626380) && Wt(m, 15) == Word(24)
    ensures forall t :: 0 < t < 15 ==> Wt(m, t) == Word(0)
  {
    assert Join(0x80, 0x63, 0x62, 0x61) == 0x61626380 && Join(24, 0, 0, 0) == 24 && Join(0, 0, 0, 0) == 0;
    hide Join;
  }

  function Extended(w3: bv32, w8: bv32, w14: bv32, w16: bv32): Word {
    RotateLeft(1, Xor4(Word(w3), Word(w8), Word(w14), Word(w16)))
  }

  lemma Extended16To23()
    ensures Extended(0x00000000, 0x00000000, 0x00000000, 0x61626380) == Word(0xc2c4c700)
    ensures Extended(0x00000000, 0x00000000, 0x00000000, 0x00000000) == Word(0x00000000)
    ensures Extended(0x00000018, 0x00000000, 0x00000000, 0x00000000) == Word(0x00000030)
    ensures Extended(0xc2c4c700, 0x00000000, 0x00000000, 0x00000000) == Word(0x85898e01)
    ensures Extended(0x00000000, 0x00000000, 0x00000000, 0x00000000) == Word(0x00000000)
    ensures Extended(0x00000030, 0x00000000, 0x00000000, 0x00000000) == Word(0x00000060)
    ensures Extended(0x85898e01, 0x00000000, 0x00000000, 0x00000000) == Word(0x0b131c03)
    ensures Extended(0x00000000, 0x00000018, 0x00000000, 0x00000000) == Word(0x00000030)
  {}

  lemma Extended24To31()
    ensures Extended(0x00000060, 0xc2c4c700, 0x00000000, 0x00000000) == Word(0x85898ec1)
    ensures Extended(0x0b131c03, 0x00000000, 0x00000000, 0x00000000) == Word(0x16263806)
    ensures Extended(0x00000030, 0x00000030, 0x00000000, 0x00000000) == Word(0x00000000)
    ensures Extended(0x85898ec1, 0x85898e01, 0x00000000, 0x00000000) == Word(0x00000180)
    ensures Extended(0x16263806, 0x00000000, 0x00000000, 0x00000000) == Word(0x2c4c700c)
    ensures Extended(0x00000000, 0x00000060, 0x00000018, 0x00000000) == Word(0x000000f0)
    ensures Extended(0x00000180, 0x0b131c03, 0xc2c4c700, 0x00000000) == Word(0x93afb507)
    ensures Extended(0x2c4c700c, 0x00000030, 0x00000000, 0x00000018) == Word(0x5898e048)
  {}

  lemma Extended32To39()
    ensures Extended(0x000000f0, 0x85898ec1, 0x00000030, 0xc2c4c700) == Word(0x8e9a9202)
    ensures Extended(0x93afb507, 0x16263806, 0x85898e01, 0x00000000) == Word(0x00000600)
    ensures Extended(0x5898e048, 0x00000000, 0x00000000, 0x00000030) == Word(0xb131c0f0)
    ensures Extended(0x8e9a9202, 0x00000180, 0x00000060, 0x85898e01) == Word(0x16263bc6)
    ensures Extended(0x00000600, 0x2c4c700c, 0x0b131c03, 0x00000000) == Word(0x4ebed41e)
    ensures Extended(0xb131c0f0, 0x000000f0, 0x00000030, 0x00000060) == Word(0x626380a1)
    ensures Extended(0x16263bc6, 0x93afb507, 0x85898ec1, 0x0b131c03) == Word(0x16263806)
    ensures Extended(0x4ebed41e, 0x5898e048, 0x16263806, 0x00000030) == Word(0x000018c0)
  {}

  lemma Extended40To47()
    ensures Extended(0x626380a1, 0x8e9a9202, 0x00000000, 0x85898ec1) == Word(0xd2e138c4)
    ensures Extended(0x16263806, 0x00000600, 0x00000180, 0x16263806) == Word(0x00000f00)
    ensures Extended(0x000018c0, 0xb131c0f0, 0x2c4c700c, 0x00000000) == Word(0x3afb5079)
    ensures Extended(0xd2e138c4, 0x16263bc6, 0x000000f0, 0x00000180) == Word(0x898e04e5)
    ensures Extended(0x00000f00, 0x4ebed41e, 0x93afb507, 0x2c4c700c) == Word(0xe2ba3c2b)
    ensures Extended(0x3afb5079, 0x626380a1, 0x5898e048, 0x000000f0) == Word(0x000060c0)
    ensures Extended(0x898e04e5, 0x16263806, 0x8e9a9202, 0x93afb507) == Word(0x053a37cd)
    ensures Extended(0xe2ba3c2b, 0x000018c0, 0x00000600, 0x5898e048) == Word(0x74458547)
  {}

  lemma Extended48To55()
    ensures Extended(0x000060c0, 0xd2e138c4, 0xb131c0f0, 0x8e9a9202) == Word(0xda9415ed)
    ensures Extended(0x053a37cd, 0x00000f00, 0x16263bc6, 0x00000600) == Word(0x26380a16)
    ensures Extended(0x74458547, 0x3afb5079, 0x4ebed41e, 0xb131c0f0) == Word(0x626383a1)
    ensures Extended(0xda9415ed, 0x898e04e5, 0x626380a1, 0x16263bc6) == Word(0x4ebf54de)
    ensures Extended(0x26380a16, 0xe2ba3c2b, 0x16263806, 0x4ebed41e) == Word(0x3835b44b)
    ensures Extended(0x626383a1, 0x000060c0, 0x000018c0, 0x626380a1) == Word(0x0000f600)
    ensures Extended(0x4ebf54de, 0x053a37cd, 0xd2e138c4, 0x16263806) == Word(0x1e84c7a3)
    ensures Extended(0x3835b44b, 0x74458547, 0x00000f00, 0x000018c0) == Word(0x98e04d98)
  {}

  lemma Extended56To63()
    ensures Extended(0x0000f600, 0xda9415ed, 0x3afb5079, 0xd2e138c4) == Word(0x651d16a0)
    ensures Extended(0x1e84c7a3, 0x26380a16, 0x898e04e5, 0x00000f00) == Word(0x62658ca1)
    ensures Extended(0x98e04d98, 0x626383a1, 0xe2ba3c2b, 0x3afb5079) == Word(0x458544d6)
    ensures Extended(0x651d16a0, 0x4ebf54de, 0x000060c0, 0x898e04e5) == Word(0x44584cb7)
    ensures Extended(0x62658ca1, 0x3835b44b, 0x053a37cd, 0xe2ba3c2b) == Word(0x7ba06619)
    ensures Extended(0x458544d6, 0x0000f600, 0x74458547, 0x000060c0) == Word(0x6380aea2)
    ensures Extended(0x44584cb7, 0x1e84c7a3, 0xda9415ed, 0x053a37cd) == Word(0x0ae55269)
    ensures Extended(0x7ba06619, 0x98e04d98, 0x26380a16, 0x74458547) == Word(0x627b49a1)
  {}

  lemma Extended64To71()
    ensures Extended(0x6380aea2, 0x651d16a0, 0x626383a1, 0xda9415ed) == Word(0x7cd45c9d)
    ensures Extended(0x0ae55269, 0x62658ca1, 0x4ebf54de, 0x26380a16) == Word(0x000f0000)
    ensures Extended(0x627b49a1, 0x458544d6, 0x3835b44b, 0x626383a1) == Word(0xfb50753a)
    ensures Extended(0x7cd45c9d, 0x44584cb7, 0x0000f600, 0x4ebf54de) == Word(0xec6765e8)
    ensures Extended(0x000f0000, 0x7ba06619, 0x1e84c7a3, 0x3835b44b) == Word(0xba3c2be2)
    ensures Extended(0xfb50753a, 0x6380aea2, 0x98e04d98, 0x0000f600) == Word(0x0060c000)
    ensures Extended(0xec6765e8, 0x0ae55269, 0x651d16a0, 0x1e84c7a3) == Word(0x3a37cd05)
    ensures Extended(0xba3c2be2, 0x627b49a1, 0x62658ca1, 0x98e04d98) == Word(0x458546f4)
  {}

  lemma Extended72To79()
    ensures Extended(0x0060c000, 0x7cd45c9d, 0x458544d6, 0x651d16a0) == Word(0xb8599dd6)
    ensures Extended(0x3a37cd05, 0x000f0000, 0x44584cb7, 0x62658ca1) == Word(0x380a1a26)
    ensures Extended(0x458546f4, 0xfb50753a, 0x7ba06619, 0x458544d6) == Word(0x01e02203)
    ensures Extended(0xb8599dd6, 0xec6765e8, 0x6380aea2, 0x44584cb7) == Word(0xe7cc3456)
    ensures Extended(0x380a1a26, 0xba3c2be2, 0x0ae55269, 0x7ba06619) == Word(0xe6e60b69)
    ensures Extended(0x01e02203, 0x0060c000, 0x627b49a1, 0x6380aea2) == Word(0x00f60a00)
    ensures Extended(0xe7cc3456, 0x3a37cd05, 0x7cd45c9d, 0x0ae55269) == Word(0x5795ef4f)
    ensures Extended(0xe6e60b69, 0x458546f4, 0x000f0000, 0x627b49a1) == Word(0x822e0879)
  {}

  lemma Words16To23(m: Block)
    requires IsAbc(m)
    ensures Wt(m, 16) == Word(0xc2c4c700) && Wt(m, 17) == Word(0x00000000)
    ensures Wt(m, 18) == Word(0x00000030) && Wt(m, 19) == Word(0x85898e01)
    ensures Wt(m, 20) == Word(0x00000000) && Wt(m, 21) == Word(0x00000060)
    ensures Wt(m, 22) == Word(0x0b131c03) && Wt(m, 23) == Word(0x00000030)
  {
    hide RotateLeft, Xor4, IsAbc, MessageWord;
    Words0To15(m);
    Extended16To23();
  }

  lemma Words24To31(m: Block)
    requires IsAbc(m)
    ensures Wt(m, 24) == Word(0x85898ec1) && Wt(m, 25) == Word(0x16263806)
    ensures Wt(m, 26) == Word(0x00000000) && Wt(m, 27) == Word(0x00000180)
    ensures Wt(m, 28) == Word(0x2c4c700c) && Wt(m, 29) == Word(0x000000f0)
    ensures Wt(m, 30) == Word(0x93afb507) && Wt(m, 31) == Word(0x5898e048)
  {
    hide RotateLeft, Xor4, IsAbc, MessageWord;
    Words0To15(m);
    Words16To23(m);
    Extended24To31();
  }

  lemma Words32To39(m: Block)
    requires IsAbc(m)
    ensures Wt(m, 32) == Word(0x8e9a9202) && Wt(m, 33) == Word(0x00000600)
    ensures Wt(m, 34) == Word(0xb131c0f0) && Wt(m, 35) == Word(0x16263bc6)
    ensures Wt(m, 36) == Word(0x4ebed41e) && Wt(m, 37) == Word(0x626380a1)
    ensures Wt(m, 38) == Word(0x16263806) && Wt(m, 39) == Word(0x000018c0)
  {
    hide RotateLeft, Xor4, IsAbc, MessageWord;
    Words16To23(m);
    Words24To31(m);
    Extended32To39();
  }

  lemma Words40To47(m: Block)
    requires IsAbc(m)
    ensures Wt(m, 40) == Word(0xd2e138c4) && Wt(m, 41) == Word(0x00000f00)
    ensures Wt(m, 42) == Word(0x3afb5079) && Wt(m, 43) == Word(0x898e04e5)
    ensures Wt(m, 44) == Word(0xe2ba3c2b) && Wt(m, 45) == Word(0x000060c0)
    ensures Wt(m, 46) == Word(0x053a37cd) && Wt(m, 47) == Word(0x74458547)
  {
    hide RotateLeft, Xor4, IsAbc, MessageWord;
    Words24To31(m);
    Words32To39(m);
    Extended40To47();
  }

  lemma Words48To55(m: Block)
    requires IsAbc(m)
    ensures Wt(m, 48) == Word(0xda9415ed) && Wt(m, 49) == Word(0x26380a16)
    ensures Wt(m, 50) == Word(0x626383a1) && Wt(m, 51) == Word(0x4ebf54de)
    ensures Wt(m, 52) == Word(0x3835b44b) && Wt(m, 53) == Word(0x0000f600)
    ensures Wt(m, 54) == Word(0x1e84c7a3) && Wt(m, 55) == Word(0x98e04d98)
  {
    hide RotateLeft, Xor4, IsAbc, MessageWord;
    Words32To39(m);
    Words40To47(m);
    Extended48To55();
  }

  lemma Words56To63(m: Block)
    requires IsAbc(m)
    ensures Wt(m, 56) == Word(0x651d16a0) && Wt(m, 57) == Word(0x62658ca1)
    ensures Wt(m, 58) == Word(0x458544d6) && Wt(m, 59) == Word(0x44584cb7)
    ensures Wt(m, 60) == Word(0x7ba06619) && Wt(m, 61) == Word(0x6380aea2)
    ensures Wt(m, 62) == Word(0x0ae55269) && Wt(m, 63) == Word(0x627b49a1)
  {
    hide RotateLeft, Xor4, IsAbc, MessageWord;
    Words40To47(m);
    Words48To55(m);
    Extended56To63();
  }

  lemma Words64To71(m: Block)
    requires IsAbc(m)
    ensures Wt(m, 64) == Word(0x7cd45c9d) && Wt(m, 65) == Word(0x000f0000)
    ensures Wt(m, 66) == Word(0xfb50753a) && Wt(m, 67) == Word(0xec6765e8)
    ensures Wt(m, 68) == Word(0xba3c2be2) && Wt(m, 69) == Word(0x0060c000)
    ensures Wt(m, 70) == Word(0x3a37cd05) && Wt(m, 71) == Word(0x458546f4)
  {
    hide RotateLeft, Xor4, IsAbc, MessageWord;
    Words48To55(m);
    Words56To63(m);
    Extended64To71();
  }

  lemma Words72To79(m: Block)
    requires IsAbc(m)
    ensures Wt(m, 72) == Word(0xb8599dd6) && Wt(m, 73) == Word(0x380a1a26)
    ensures Wt(m, 74) == Word(0x01e02203) && Wt(m, 75) == Word(0xe7cc3456)
    ensures Wt(m, 76) == Word(0xe6e60b69) && Wt(m, 77) == Word(0x00f60a00)
    ensures Wt(m, 78) == Word(0x5795ef4f) && Wt(m, 79) == Word(0x822e0879)
  {
    hide RotateLeft, Xor4, IsAbc, MessageWord;
    Words56To63(m);
    Words64To71(m);
    Extended72To79();
  }

  lemma Steps0To3()
    ensures Step(0, Word(0x61626380), State(0x67452301, 0xefcdab89, 0x98badcfe, 0x10325476, 0xc3d2e1f0))
         == State(0x0116fc33, 0x67452301, 0x7bf36ae2, 0x98badcfe, 0x10325476)
    ensures Step(1, Word(0x00000000), State(0x0116fc33, 0x67452301, 0x7bf36ae2, 0x98badcfe, 0x10325476))
         == State(0x8990536d, 0x0116fc33, 0x59d148c0, 0x7bf36ae2, 0x98badcfe)
    ensures Step(2, Word(0x00000000), State(0x8990536d, 0x0116fc33, 0x59d148c0, 0x7bf36ae2, 0x98badcfe))
         == State(0xa1390f08, 0x8990536d, 0xc045bf0c, 0x59d148c0, 0x7bf36ae2)
    ensures Step(3, Word(0x00000000), State(0xa1390f08, 0x8990536d, 0xc045bf0c, 0x59d148c0, 0x7bf36ae2))
         == State(0xcdd8e11b, 0xa1390f08, 0x626414db, 0xc045bf0c, 0x59d148c0)
  {}

  lemma Steps4To7()
    ensures Step(4, Word(0x00000000), State(0xcdd8e11b, 0xa1390f08, 0x626414db, 0xc045bf0c, 0x59d148c0))
         == State(0xcfd499de, 0xcdd8e11b, 0x284e43c2, 0x626414db, 0xc045bf0c)
    ensures Step(5, Word(0x00000000), State(0xcfd499de, 0xcdd8e11b, 0x284e43c2, 0x626414db, 0xc045bf0c))
         == State(0x3fc7ca40, 0xcfd499de, 0xf3763846, 0x284e43c2, 0x626414db)
    ensures Step(6, Word(0x00000000), State(0x3fc7ca40, 0xcfd499de, 0xf3763846, 0x284e43c2, 0x626414db))
         == State(0x993e30c1, 0x3fc7ca40, 0xb3f52677, 0xf3763846, 0x284e43c2)
    ensures Step(7, Word(0x00000000), State(0x993e30c1, 0x3fc7ca40, 0xb3f52677, 0xf3763846, 0x284e43c2))
         == State(0x9e8c07d4, 0x993e30c1, 0x0ff1f290, 0xb3f52677, 0xf3763846)
  {}

  lemma Steps8To11()
    ensures Step(8, Word(0x00000000), State(0x9e8c07d4, 0x993e30c1, 0x0ff1f290, 0xb3f52677, 0xf3763846))
         == State(0x4b6ae328, 0x9e8c07d4, 0x664f8c30, 0x0ff1f290, 0xb3f52677)
    ensures Step(9, Word(0x00000000), State(0x4b6ae328, 0x9e8c07d4, 0x664f8c30, 0x0ff1f290, 0xb3f52677))
         == State(0x8351f929, 0x4b6ae328, 0x27a301f5, 0x664f8c30, 0x0ff1f290)
    ensures Step(10, Word(0x00000000), State(0x8351f929, 0x4b6ae328, 0x27a301f5, 0x664f8c30, 0x0ff1f290))
         == State(0xfbda9e89, 0x8351f929, 0x12dab8ca, 0x27a301f5, 0x664f8c30)
    ensures Step(11, Word(0x00000000), State(0xfbda9e89, 0x8351f929, 0x12dab8ca, 0x27a301f5, 0x664f8c30))
         == State(0x63188fe4, 0xfbda9e89, 0x60d47e4a, 0x12dab8ca, 0x27a301f5)
  {}

  lemma Steps12To15()
    ensures Step(12, Word(0x00000000), State(0x63188fe4, 0xfbda9e89, 0x60d47e4a, 0x12dab8ca, 0x27a301f5))
         == State(0x4607b664, 0x63188fe4, 0x7ef6a7a2, 0x60d47e4a, 0x12dab8ca)
    ensures Step(13, Word(0x00000000), State(0x4607b664, 0x63188fe4, 0x7ef6a7a2, 0x60d47e4a, 0x12dab8ca))
         == State(0x9128f695, 0x4607b664, 0x18c623f9, 0x7ef6a7a2, 0x60d47e4a)
    ensures Step(14, Word(0x00000000), State(0x9128f695, 0x4607b664, 0x18c623f9, 0x7ef6a7a2, 0x60d47e4a))
         == State(0x196bee77, 0x9128f695, 0x1181ed99, 0x18c623f9, 0x7ef6a7a2)
    ensures Step(15, Word(0x00000018), State(0x196bee77, 0x9128f695, 0x1181ed99, 0x18c623f9, 0x7ef6a7a2))
         == State(0x20bdd62f, 0x196bee77, 0x644a3da5, 0x1181ed99, 0x18c623f9)
  {}

  lemma Steps16To19()
    ensures Step(16, Word(0xc2c4c700), State(0x20bdd62f, 0x196bee77, 0x644a3da5, 0x1181ed99, 0x18c623f9))
         == State(0x4e925823, 0x20bdd62f, 0xc65afb9d, 0x644a3da5, 0x1181ed99)
    ensures Step(17, Word(0x00000000), State(0x4e925823, 0x20bdd62f, 0xc65afb9d, 0x644a3da5, 0x1181ed99))
         == State(0x82aa6728, 0x4e925823, 0xc82f758b, 0xc65afb9d, 0x644a3da5)
    ensures Step(18, Word(0x00000030), State(0x82aa6728, 0x4e925823, 0xc82f758b, 0xc65afb9d, 0x644a3da5))
         == State(0xdc64901d, 0x82aa6728, 0xd3a49608, 0xc82f758b, 0xc65afb9d)
    ensures Step(19, Word(0x85898e01), State(0xdc64901d, 0x82aa6728, 0xd3a49608, 0xc82f758b, 0xc65afb9d))
         == State(0xfd9e1d7d, 0xdc64901d, 0x20aa99ca, 0xd3a49608, 0xc82f758b)
  {}

  lemma Steps20To23()
    ensures Step(20, Word(0x00000000), State(0xfd9e1d7d, 0xdc64901d, 0x20aa99ca, 0xd3a49608, 0xc82f758b))
         == State(0x1a37b0ca, 0xfd9e1d7d, 0x77192407, 0x20aa99ca, 0xd3a49608)
    ensures Step(21, Word(0x00000060), State(0x1a37b0ca, 0xfd9e1d7d, 0x77192407, 0x20aa99ca, 0xd3a49608))
         == State(0x33a23bfc, 0x1a37b0ca, 0x7f67875f, 0x77192407, 0x20aa99ca)
    ensures Step(22, Word(0x0b131c03), State(0x33a23bfc, 0x1a37b0ca, 0x7f67875f, 0x77192407, 0x20aa99ca))
         == State(0x21283486, 0x33a23bfc, 0x868dec32, 0x7f67875f, 0x77192407)
    ensures Step(23, Word(0x00000030), State(0x21283486, 0x33a23bfc, 0x868dec32, 0x7f67875f, 0x77192407))
         == State(0xd541f12d, 0x21283486, 0x0ce88eff, 0x868dec32, 0x7f67875f)
  {}

  lemma Steps24To27()
    ensures Step(24, Word(0x85898ec1), State(0xd541f12d, 0x21283486, 0x0ce88eff, 0x868dec32, 0x7f67875f))
         == State(0xc7567dc6, 0xd541f12d, 0x884a0d21, 0x0ce88eff, 0x868dec32)
    ensures Step(25, Word(0x16263806), State(0xc7567dc6, 0xd541f12d, 0x884a0d21, 0x0ce88eff, 0x868dec32))
         == State(0x48413ba4, 0xc7567dc6, 0x75507c4b, 0x884a0d21, 0x0ce88eff)
    ensures Step(26, Word(0x00000000), State(0x48413ba4, 0xc7567dc6, 0x75507c4b, 0x884a0d21, 0x0ce88eff))
         == State(0xbe35fbd5, 0x48413ba4, 0xb1d59f71, 0x75507c4b, 0x884a0d21)
    ensures Step(27, Word(0x00000180), State(0xbe35fbd5, 0x48413ba4, 0xb1d59f71, 0x75507c4b, 0x884a0d21))
         == State(0x4aa84d97, 0xbe35fbd5, 0x12104ee9, 0xb1d59f71, 0x75507c4b)
  {}

  lemma Steps28To31()
    ensures Step(28, Word(0x2c4c700c), State(0x4aa84d97, 0xbe35fbd5, 0x12104ee9, 0xb1d59f71, 0x75507c4b))
         == State(0x8370b52e, 0x4aa84d97, 0x6f8d7ef5, 0x12104ee9, 0xb1d59f71)
    ensures Step(29, Word(0x000000f0), State(0x8370b52e, 0x4aa84d97, 0x6f8d7ef5, 0x12104ee9, 0xb1d59f71))
         == State(0xc5fbaf5d, 0x8370b52e, 0xd2aa1365, 0x6f8d7ef5, 0x12104ee9)
    ensures Step(30, Word(0x93afb507), State(0xc5fbaf5d, 0x8370b52e, 0xd2aa1365, 0x6f8d7ef5, 0x12104ee9))
         == State(0x1267b407, 0xc5fbaf5d, 0xa0dc2d4b, 0xd2aa1365, 0x6f8d7ef5)
    ensures Step(31, Word(0x5898e048), State(0x1267b407, 0xc5fbaf5d, 0xa0dc2d4b, 0xd2aa1365, 0x6f8d7ef5))
         == State(0x3b845d33, 0x1267b407, 0x717eebd7, 0xa0dc2d4b, 0xd2aa1365)
  {}

  lemma Steps32To35()
    ensures Step(32, Word(0x8e9a9202), State(0x3b845d33, 0x1267b407, 0x717eebd7, 0xa0dc2d4b, 0xd2aa1365))
         == State(0x046faa0a, 0x3b845d33, 0xc499ed01, 0x717eebd7, 0xa0dc2d4b)
    ensures Step(33, Word(0x00000600), State(0x046faa0a, 0x3b845d33, 0xc499ed01, 0x717eebd7, 0xa0dc2d4b))
         == State(0x2c0ebc11, 0x046faa0a, 0xcee1174c, 0xc499ed01, 0x717eebd7)
    ensures Step(34, Word(0xb131c0f0), State(0x2c0ebc11, 0x046faa0a, 0xcee1174c, 0xc499ed01, 0x717eebd7))
         == State(0x21796ad4, 0x2c0ebc11, 0x811bea82, 0xcee1174c, 0xc499ed01)
    ensures Step(35, Word(0x16263bc6), State(0x21796ad4, 0x2c0ebc11, 0x811bea82, 0xcee1174c, 0xc499ed01))
         == State(0xdcbbb0cb, 0x21796ad4, 0x4b03af04, 0x811bea82, 0xcee1174c)
  {}

  lemma Steps36To39()
    ensures Step(36, Word(0x4ebed41e), State(0xdcbbb0cb, 0x21796ad4, 0x4b03af04, 0x811bea82, 0xcee1174c))
         == State(0x0f511fd8, 0xdcbbb0cb, 0x085e5ab5, 0x4b03af04, 0x811bea82)
    ensures Step(37, Word(0x626380a1), State(0x0f511fd8, 0xdcbbb0cb, 0x085e5ab5, 0x4b03af04, 0x811bea82))
         == State(0xdc63973f, 0x0f511fd8, 0xf72eec32, 0x085e5ab5, 0x4b03af04)
    ensures Step(38, Word(0x16263806), State(0xdc63973f, 0x0f511fd8, 0xf72eec32, 0x085e5ab5, 0x4b03af04))
         == State(0x4c986405, 0xdc63973f, 0x03d447f6, 0xf72eec32, 0x085e5ab5)
    ensures Step(39, Word(0x000018c0), State(0x4c986405, 0xdc63973f, 0x03d447f6, 0xf72eec32, 0x085e5ab5))
         == State(0x32de1cba, 0x4c986405, 0xf718e5cf, 0x03d447f6, 0xf72eec32)
  {}

  lemma Steps40To43()
    ensures Step(40, Word(0xd2e138c4), State(0x32de1cba, 0x4c986405, 0xf718e5cf, 0x03d447f6, 0xf72eec32))
         == State(0xfc87dedf, 0x32de1cba, 0x53261901, 0xf718e5cf, 0x03d447f6)
    ensures Step(41, Word(0x00000f00), State(0xfc87dedf, 0x32de1cba, 0x53261901, 0xf718e5cf, 0x03d447f6))
         == State(0x970a0d5c, 0xfc87dedf, 0x8cb7872e, 0x53261901, 0xf718e5cf)
    ensures Step(42, Word(0x3afb5079), State(0x970a0d5c, 0xfc87dedf, 0x8cb7872e, 0x53261901, 0xf718e5cf))
         == State(0x7f193dc5, 0x970a0d5c, 0xff21f7b7, 0x8cb7872e, 0x53261901)
    ensures Step(43, Word(0x898e04e5), State(0x7f193dc5, 0x970a0d5c, 0xff21f7b7, 0x8cb7872e, 0x53261901))
         == State(0xee1b1aaf, 0x7f193dc5, 0x25c28357, 0xff21f7b7, 0x8cb7872e)
  {}

  lemma Steps44To47()
    ensures Step(44, Word(0xe2ba3c2b), State(0xee1b1aaf, 0x7f193dc5, 0x25c28357, 0xff21f7b7, 0x8cb7872e))
         == State(0x40f28e09, 0xee1b1aaf, 0x5fc64f71, 0x25c28357, 0xff21f7b7)
    ensures Step(45, Word(0x000060c0), State(0x40f28e09, 0xee1b1aaf, 0x5fc64f71, 0x25c28357, 0xff21f7b7))
         == State(0x1c51e1f2, 0x40f28e09, 0xfb86c6ab, 0x5fc64f71, 0x25c28357)
    ensures Step(46, Word(0x053a37cd), State(0x1c51e1f2, 0x40f28e09, 0xfb86c6ab, 0x5fc64f71, 0x25c28357))
         == State(0xa01b846c, 0x1c51e1f2, 0x503ca382, 0xfb86c6ab, 0x5fc64f71)
    ensures Step(47, Word(0x74458547), State(0xa01b846c, 0x1c51e1f2, 0x503ca382, 0xfb86c6ab, 0x5fc64f71))
         == State(0xbead02ca, 0xa01b846c, 0x8714787c, 0x503ca382, 0xfb86c6ab)
  {}

  lemma Steps48To51()
    ensures Step(48, Word(0xda9415ed), State(0xbead02ca, 0xa01b846c, 0x8714787c, 0x503ca382, 0xfb86c6ab))
         == State(0xbaf39337, 0xbead02ca, 0x2806e11b, 0x8714787c, 0x503ca382)
    ensures Step(49, Word(0x26380a16), State(0xbaf39337, 0xbead02ca, 0x2806e11b, 0x8714787c, 0x503ca382))
         == State(0x120731c5, 0xbaf39337, 0xafab40b2, 0x2806e11b, 0x8714787c)
    ensures Step(50, Word(0x626383a1), State(0x120731c5, 0xbaf39337, 0xafab40b2, 0x2806e11b, 0x8714787c))
         == State(0x641db2ce, 0x120731c5, 0xeebce4cd, 0xafab40b2, 0x2806e11b)
    ensures Step(51, Word(0x4ebf54de), State(0x641db2ce, 0x120731c5, 0xeebce4cd, 0xafab40b2, 0x2806e11b))
         == State(0x3847ad66, 0x641db2ce, 0x4481cc71, 0xeebce4cd, 0xafab40b2)
  {}

  lemma Steps52To55()
    ensures Step(52, Word(0x3835b44b), State(0x3847ad66, 0x641db2ce, 0x4481cc71, 0xeebce4cd, 0xafab40b2))
         == State(0xe490436d, 0x3847ad66, 0x99076cb3, 0x4481cc71, 0xeebce4cd)
    ensures Step(53, Word(0x0000f600), State(0xe490436d, 0x3847ad66, 0x99076cb3, 0x4481cc71, 0xeebce4cd))
         == State(0x27e9f1d8, 0xe490436d, 0x8e11eb59, 0x99076cb3, 0x4481cc71)
    ensures Step(54, Word(0x1e84c7a3), State(0x27e9f1d8, 0xe490436d, 0x8e11eb59, 0x99076cb3, 0x4481cc71))
         == State(0x7b71f76d, 0x27e9f1d8, 0x792410db, 0x8e11eb59, 0x99076cb3)
    ensures Step(55, Word(0x98e04d98), State(0x7b71f76d, 0x27e9f1d8, 0x792410db, 0x8e11eb59, 0x99076cb3))
         == State(0x5e6456af, 0x7b71f76d, 0x09fa7c76, 0x792410db, 0x8e11eb59)
  {}

  lemma Steps56To59()
    ensures Step(56, Word(0x651d16a0), State(0x5e6456af, 0x7b71f76d, 0x09fa7c76, 0x792410db, 0x8e11eb59))
         == State(0xc846093f, 0x5e6456af, 0x5edc7ddb, 0x09fa7c76, 0x792410db)
    ensures Step(57, Word(0x62658ca1), State(0xc846093f, 0x5e6456af, 0x5edc7ddb, 0x09fa7c76, 0x792410db))
         == State(0xd262ff50, 0xc846093f, 0xd79915ab, 0x5edc7ddb, 0x09fa7c76)
    ensures Step(58, Word(0x458544d6), State(0xd262ff50, 0xc846093f, 0xd79915ab, 0x5edc7ddb, 0x09fa7c76))
         == State(0x09d785fd, 0xd262ff50, 0xf211824f, 0xd79915ab, 0x5edc7ddb)
    ensures Step(59, Word(0x44584cb7), State(0x09d785fd, 0xd262ff50, 0xf211824f, 0xd79915ab, 0x5edc7ddb))
         == State(0x3f52de5a, 0x09d785fd, 0x3498bfd4, 0xf211824f, 0xd79915ab)
  {}

  lemma Steps60To63()
    ensures Step(60, Word(0x7ba06619), State(0x3f52de5a, 0x09d785fd, 0x3498bfd4, 0xf211824f, 0xd79915ab))
         == State(0xd756c147, 0x3f52de5a, 0x4275e17f, 0x3498bfd4, 0xf211824f)
    ensures Step(61, Word(0x6380aea2), State(0xd756c147, 0x3f52de5a, 0x4275e17f, 0x3498bfd4, 0xf211824f))
         == State(0x548c9cb2, 0xd756c147, 0x8fd4b796, 0x4275e17f, 0x3498bfd4)
    ensures Step(62, Word(0x0ae55269), State(0x548c9cb2, 0xd756c147, 0x8fd4b796, 0x4275e17f, 0x3498bfd4))
         == State(0xb66c020b, 0x548c9cb2, 0xf5d5b051, 0x8fd4b796, 0x4275e17f)
    ensures Step(63, Word(0x627b49a1), State(0xb66c020b, 0x548c9cb2, 0xf5d5b051, 0x8fd4b796, 0x4275e17f))
         == State(0x6b61c9e1, 0xb66c020b, 0x9523272c, 0xf5d5b051, 0x8fd4b796)
  {}

  lemma Steps64To67()
    ensures Step(64, Word(0x7cd45c9d), State(0x6b61c9e1, 0xb66c020b, 0x9523272c, 0xf5d5b051, 0x8fd4b796))
         == State(0x19dfa7ac, 0x6b61c9e1, 0xed9b0082, 0x9523272c, 0xf5d5b051)
    ensures Step(65, Word(0x000f0000), State(0x19dfa7ac, 0x6b61c9e1, 0xed9b0082, 0x9523272c, 0xf5d5b051))
         == State(0x101655f9, 0x19dfa7ac, 0x5ad87278, 0xed9b0082, 0x9523272c)
    ensures Step(66, Word(0xfb50753a), State(0x101655f9, 0x19dfa7ac, 0x5ad87278, 0xed9b0082, 0x9523272c))
         == State(0x0c3df2b4, 0x101655f9, 0x0677e9eb, 0x5ad87278, 0xed9b0082)
    ensures Step(67, Word(0xec6765e8), State(0x0c3df2b4, 0x101655f9, 0x0677e9eb, 0x5ad87278, 0xed9b0082))
         == State(0x78dd4d2b, 0x0c3df2b4, 0x4405957e, 0x0677e9eb, 0x5ad87278)
  {}

  lemma Steps68To71()
    ensures Step(68, Word(0xba3c2be2), State(0x78dd4d2b, 0x0c3df2b4, 0x4405957e, 0x0677e9eb, 0x5ad87278))
         == State(0x497093c0, 0x78dd4d2b, 0x030f7cad, 0x4405957e, 0x0677e9eb)
    ensures Step(69, Word(0x0060c000), State(0x497093c0, 0x78dd4d2b, 0x030f7cad, 0x4405957e, 0x0677e9eb))
         == State(0x3f2588c2, 0x497093c0, 0xde37534a, 0x030f7cad, 0x4405957e)
    ensures Step(70, Word(0x3a37cd05), State(0x3f2588c2, 0x497093c0, 0xde37534a, 0x030f7cad, 0x4405957e))
         == State(0xc199f8c7, 0x3f2588c2, 0x125c24f0, 0xde37534a, 0x030f7cad)
    ensures Step(71, Word(0x458546f4), State(0xc199f8c7, 0x3f2588c2, 0x125c24f0, 0xde37534a, 0x030f7cad))
         == State(0x39859de7, 0xc199f8c7, 0x8fc96230, 0x125c24f0, 0xde37534a)
  {}

  lemma Steps72To75()
    ensures Step(72, Word(0xb8599dd6), State(0x39859de7, 0xc199f8c7, 0x8fc96230, 0x125c24f0, 0xde37534a))
         == State(0xedb42de4, 0x39859de7, 0xf0667e31, 0x8fc96230, 0x125c24f0)
    ensures Step(73, Word(0x380a1a26), State(0xedb42de4, 0x39859de7, 0xf0667e31, 0x8fc96230, 0x125c24f0))
         == State(0x11793f6f, 0xedb42de4, 0xce616779, 0xf0667e31, 0x8fc96230)
    ensures Step(74, Word(0x01e02203), State(0x11793f6f, 0xedb42de4, 0xce616779, 0xf0667e31, 0x8fc96230))
         == State(0x5ee76897, 0x11793f6f, 0x3b6d0b79, 0xce616779, 0xf0667e31)
    ensures Step(75, Word(0xe7cc3456), State(0x5ee76897, 0x11793f6f, 0x3b6d0b79, 0xce616779, 0xf0667e31))
         == State(0x63f7dab7, 0x5ee76897, 0xc45e4fdb, 0x3b6d0b79, 0xce616779)
  {}

  lemma Steps76To79()
    ensures Step(76, Word(0xe6e60b69), State(0x63f7dab7, 0x5ee76897, 0xc45e4fdb, 0x3b6d0b79, 0xce616779))
         == State(0xa079b7d9, 0x63f7dab7, 0xd7b9da25, 0xc45e4fdb, 0x3b6d0b79)
    ensures Step(77, Word(0x00f60a00), State(0xa079b7d9, 0x63f7dab7, 0xd7b9da25, 0xc45e4fdb, 0x3b6d0b79))
         == State(0x860d21cc, 0xa079b7d9, 0xd8fdf6ad, 0xd7b9da25, 0xc45e4fdb)
    ensures Step(78, Word(0x5795ef4f), State(0x860d21cc, 0xa079b7d9, 0xd8fdf6ad, 0xd7b9da25, 0xc45e4fdb))
         == State(0x5738d5e1, 0x860d21cc, 0x681e6df6, 0xd8fdf6ad, 0xd7b9da25)
    ensures Step(79, Word(0x822e0879), State(0x5738d5e1, 0x860d21cc, 0x681e6df6, 0xd8fdf6ad, 0xd7b9da25))
         == State(0x42541b35, 0x5738d5e1, 0x21834873, 0x681e6df6, 0xd8fdf6ad)
  {}

  lemma Steps0To19(m: Block)
    requires IsAbc(m) && Steps(m, 0, INITIAL) == State(0x67452301, 0xefcdab89, 0x98badcfe, 0x10325476, 0xc3d2e1f0)
    ensures Steps(m, 20, INITIAL) == State(0xfd9e1d7d, 0xdc64901d, 0x20aa99ca, 0xd3a49608, 0xc82f758b)
  {
    hide Step, State, IsAbc, Wt;
    Words0To15(m);
    Words16To23(m);
    Steps0To3();
    assert Steps(m, 1, INITIAL) == State(0x0116fc33, 0x67452301, 0x7bf36ae2, 0x98badcfe, 0x10325476);
    assert Steps(m, 2, INITIAL) == State(0x8990536d, 0x0116fc33, 0x59d148c0, 0x7bf36ae2, 0x98badcfe);
    assert Steps(m, 3, INITIAL) == State(0xa1390f08, 0x8990536d, 0xc045bf0c, 0x59d148c0, 0x7bf36ae2);
    assert Steps(m, 4, INITIAL) == State(0xcdd8e11b, 0xa1390f08, 0x626414db, 0xc045bf0c, 0x59d148c0);
    Steps4To7();
    assert Steps(m, 5, INITIAL) == State(0xcfd499de, 0xcdd8e11b, 0x284e43c2, 0x626414db, 0xc045bf0c);
    assert Steps(m, 6, INITIAL) == State(0x3fc7ca40, 0xcfd499de, 0xf3763846, 0x284e43c2, 0x626414db);
    assert Steps(m, 7, INITIAL) == State(0x993e30c1, 0x3fc7ca40, 0xb3f52677, 0xf3763846, 0x284e43c2);
    assert Steps(m, 8, INITIAL) == State(0x9e8c07d4, 0x993e30c1, 0x0ff1f290, 0xb3f52677, 0xf3763846);
    Steps8To11();
    assert Steps(m, 9, INITIAL) == State(0x4b6ae328, 0x9e8c07d4, 0x664f8c30, 0x0ff1f290, 0xb3f52677);
    assert Steps(m, 10, INITIAL) == State(0x8351f929, 0x4b6ae328, 0x27a301f5, 0x664f8c30, 0x0ff1f290);
    assert Steps(m, 11, INITIAL) == State(0xfbda9e89, 0x8351f929, 0x12dab8ca, 0x27a301f5, 0x664f8c30);
    assert Steps(m, 12, INITIAL) == State(0x63188fe4, 0xfbda9e89, 0x60d47e4a, 0x12dab8ca, 0x27a301f5);
    Steps12To15();
    assert Steps(m, 13, INITIAL) == State(0x4607b664, 0x63188fe4, 0x7ef6a7a2, 0x60d47e4a, 0x12dab8ca);
    assert Steps(m, 14, INITIAL) == State(0x9128f695, 0x4607b664, 0x18c623f9, 0x7ef6a7a2, 0x60d47e4a);
    assert Steps(m, 15, INITIAL) == State(0x196bee77, 0x9128f695, 0x1181ed99, 0x18c623f9, 0x7ef6a7a2);
    assert Steps(m, 16, INITIAL) == State(0x20bdd62f, 0x196bee77, 0x644a3da5, 0x1181ed99, 0x18c623f9);
    Steps16To19();
    assert Steps(m, 17, INITIAL) == State(0x4e925823, 0x20bdd62f, 0xc65afb9d, 0x644a3da5, 0x1181ed99);
    assert Steps(m, 18, INITIAL) == State(0x82aa6728, 0x4e925823, 0xc82f758b, 0xc65afb9d, 0x644a3da5);
    assert Steps(m, 19, INITIAL) == State(0xdc64901d, 0x82aa6728, 0xd3a49608, 0xc82f758b, 0xc65afb9d);
    assert Steps(m, 20, INITIAL) == State(0xfd9e1d7d, 0xdc64901d, 0x20aa99ca, 0xd3a49608, 0xc82f758b);
  }

  lemma Steps20To39(m: Block)
    requires IsAbc(m) && Steps(m, 20, INITIAL) == State(0xfd9e1d7d, 0xdc64901d, 0x20aa99ca, 0xd3a49608, 0xc82f758b)
    ensures Steps(m, 40, INITIAL) == State(0x32de1cba, 0x4c986405, 0xf718e5cf, 0x03d447f6, 0xf72eec32)
  {
    hide Step, State, IsAbc, Wt;
    Words16To23(m);
    Words24To31(m);
    Words32To39(m);
    Steps20To23();
    assert Steps(m, 21, INITIAL) == State(0x1a37b0ca, 0xfd9e1d7d, 0x77192407, 0x20aa99ca, 0xd3a49608);
    assert Steps(m, 22, INITIAL) == State(0x33a23bfc, 0x1a37b0ca, 0x7f67875f, 0x77192407, 0x20aa99ca);
    assert Steps(m, 23, INITIAL) == State(0x21283486, 0x33a23bfc, 0x868dec32, 0x7f67875f, 0x77192407);
    assert Steps(m, 24, INITIAL) == State(0xd541f12d, 0x21283486, 0x0ce88eff, 0x868dec32, 0x7f67875f);
    Steps24To27();
    assert Steps(m, 25, INITIAL) == State(0xc7567dc6, 0xd541f12d, 0x884a0d21, 0x0ce88eff, 0x868dec32);
    assert Steps(m, 26, INITIAL) == State(0x48413ba4, 0xc7567dc6, 0x75507c4b, 0x884a0d21, 0x0ce88eff);
    assert Steps(m, 27, INITIAL) == State(0xbe35fbd5, 0x48413ba4, 0xb1d59f71, 0x75507c4b, 0x884a0d21);
    assert Steps(m, 28, INITIAL) == State(0x4aa84d97, 0xbe35fbd5, 0x12104ee9, 0xb1d59f71, 0x75507c4b);
    Steps28To31();
    assert Steps(m, 29, INITIAL) == State(0x8370b52e, 0x4aa84d97, 0x6f8d7ef5, 0x12104ee9, 0xb1d59f71);
    assert Steps(m, 30, INITIAL) == State(0xc5fbaf5d, 0x8370b52e, 0xd2aa1365, 0x6f8d7ef5, 0x12104ee9);
    assert Steps(m, 31, INITIAL) == State(0x1267b407, 0xc5fbaf5d, 0xa0dc2d4b, 0xd2aa1365, 0x6f8d7ef5);
    assert Steps(m, 32, INITIAL) == State(0x3b845d33, 0x1267b407, 0x717eebd7, 0xa0dc2d4b, 0xd2aa1365);
    Steps32To35();
    assert Steps(m, 33, INITIAL) == State(0x046faa0a, 0x3b845d33, 0xc499ed01, 0x717eebd7, 0xa0dc2d4b);
    assert Steps(m, 34, INITIAL) == State(0x2c0ebc11, 0x046faa0a, 0xcee1174c, 0xc499ed01, 0x717eebd7);
    assert Steps(m, 35, INITIAL) == State(0x21796ad4, 0x2c0ebc11, 0x811bea82, 0xcee1174c, 0xc499ed01);
    assert Steps(m, 36, INITIAL) == State(0xdcbbb0cb, 0x21796ad4, 0x4b03af04, 0x811bea82, 0xcee1174c);
    Steps36To39();
    assert Steps(m, 37, INITIAL) == State(0x0f511fd8, 0xdcbbb0cb, 0x085e5ab5, 0x4b03af04, 0x811bea82);
    assert Steps(m, 38, INITIAL) == State(0xdc63973f, 0x0f511fd8, 0xf72eec32, 0x085e5ab5, 0x4b03af04);
    assert Steps(m, 39, INITIAL) == State(0x4c986405, 0xdc63973f, 0x03d447f6, 0xf72eec32, 0x085e5ab5);
    assert Steps(m, 40, INITIAL) == State(0x32de1cba, 0x4c986405, 0xf718e5cf, 0x03d447f6, 0xf72eec32);
  }

  lemma Steps40To59(m: Block)
    requires IsAbc(m) && Steps(m, 40, INITIAL) == State(0x32de1cba, 0x4c986405, 0xf718e5cf, 0x03d447f6, 0xf72eec32)
    ensures Steps(m, 60, INITIAL) == State(0x3f52de5a, 0x09d785fd, 0x3498bfd4, 0xf211824f, 0xd79915ab)
  {
    hide Step, State, IsAbc, Wt;
    Words40To47(m);
    Words48To55(m);
    Words56To63(m);
    Steps40To43();
    assert Steps(m, 41, INITIAL) == State(0xfc87dedf, 0x32de1cba, 0x53261901, 0xf718e5cf, 0x03d447f6);
    assert Steps(m, 42, INITIAL) == State(0x970a0d5c, 0xfc87dedf, 0x8cb7872e, 0x53261901, 0xf718e5cf);
    assert Steps(m, 43, INITIAL) == State(0x7f193dc5, 0x970a0d5c, 0xff21f7b7, 0x8cb7872e, 0x53261901);
    assert Steps(m, 44, INITIAL) == State(0xee1b1aaf, 0x7f193dc5, 0x25c28357, 0xff21f7b7, 0x8cb7872e);
    Steps44To47();
    assert Steps(m, 45, INITIAL) == State(0x40f28e09, 0xee1b1aaf, 0x5fc64f71, 0x25c28357, 0xff21f7b7);
    assert Steps(m, 46, INITIAL) == State(0x1c51e1f2, 0x40f28e09, 0xfb86c6ab, 0x5fc64f71, 0x25c28357);
    assert Steps(m, 47, INITIAL) == State(0xa01b846c, 0x1c51e1f2, 0x503ca382, 0xfb86c6ab, 0x5fc64f71);
    assert Steps(m, 48, INITIAL) == State(0xbead02ca, 0xa01b846c, 0x8714787c, 0x503ca382, 0xfb86c6ab);
    Steps48To51();
    assert Steps(m, 49, INITIAL) == State(0xbaf39337, 0xbead02ca, 0x2806e11b, 0x8714787c, 0x503ca382);
    assert Steps(m, 50, INITIAL) == State(0x120731c5, 0xbaf39337, 0xafab40b2, 0x2806e11b, 0x8714787c);
    assert Steps(m, 51, INITIAL) == State(0x641db2ce, 0x120731c5, 0xeebce4cd, 0xafab40b2, 0x2806e11b);
    assert Steps(m, 52, INITIAL) == State(0x3847ad66, 0x641db2ce, 0x4481cc71, 0xeebce4cd, 0xafab40b2);
    Steps52To55();
    assert Steps(m, 53, INITIAL) == State(0xe490436d, 0x3847ad66, 0x99076cb3, 0x4481cc71, 0xeebce4cd);
    assert Steps(m, 54, INITIAL) == State(0x27e9f1d8, 0xe490436d, 0x8e11eb59, 0x99076cb3, 0x4481cc71);
    assert Steps(m, 55, INITIAL) == State(0x7b71f76d, 0x27e9f1d8, 0x792410db, 0x8e11eb59, 0x99076cb3);
    assert Steps(m, 56, INITIAL) == State(0x5e6456af, 0x7b71f76d, 0x09fa7c76, 0x792410db, 0x8e11eb59);
    Steps56To59();
    assert Steps(m, 57, INITIAL) == State(0xc846093f, 0x5e6456af, 0x5edc7ddb, 0x09fa7c76, 0x792410db);
    assert Steps(m, 58, INITIAL) == State(0xd262ff50, 0xc846093f, 0xd79915ab, 0x5edc7ddb, 0x09fa7c76);
    assert Steps(m, 59, INITIAL) == State(0x09d785fd, 0xd262ff50, 0xf211824f, 0xd79915ab, 0x5edc7ddb);
    assert Steps(m, 60, INITIAL) == State(0x3f52de5a, 0x09d785fd, 0x3498bfd4, 0xf211824f, 0xd79915ab);
  }

  lemma Steps60To79(m: Block)
    requires IsAbc(m) && Steps(m, 60, INITIAL) == State(0x3f52de5a, 0x09d785fd, 0x3498bfd4, 0xf211824f, 0xd79915ab)
    ensures Steps(m, 80, INITIAL) == State(0x42541b35, 0x5738d5e1, 0x21834873, 0x681e6df6, 0xd8fdf6ad)
  {
    hide Step, State, IsAbc, Wt;
    Words56To63(m);
    Words64To71(m);
    Words72To79(m);
    Steps60To63();
    assert Steps(m, 61, INITIAL) == State(0xd756c147, 0x3f52de5a, 0x4275e17f, 0x3498bfd4, 0xf211824f);
    assert Steps(m, 62, INITIAL) == State(0x548c9cb2, 0xd756c147, 0x8fd4b796, 0x4275e17f, 0x3498bfd4);
    assert Steps(m, 63, INITIAL) == State(0xb66c020b, 0x548c9cb2, 0xf5d5b051, 0x8fd4b796, 0x4275e17f);
    assert Steps(m, 64, INITIAL) == State(0x6b61c9e1, 0xb66c020b, 0x9523272c, 0xf5d5b051, 0x8fd4b796);
    Steps64To67();
    assert Steps(m, 65, INITIAL) == State(0x19dfa7ac, 0x6b61c9e1, 0xed9b0082, 0x9523272c, 0xf5d5b051);
    assert Steps(m, 66, INITIAL) == State(0x101655f9, 0x19dfa7ac, 0x5ad87278, 0xed9b0082, 0x9523272c);
    assert Steps(m, 67, INITIAL) == State(0x0c3df2b4, 0x101655f9, 0x0677e9eb, 0x5ad87278, 0xed9b0082);
    assert Steps(m, 68, INITIAL) == State(0x78dd4d2b, 0x0c3df2b4, 0x4405957e, 0x0677e9eb, 0x5ad87278);
    Steps68To71();
    assert Steps(m, 69, INITIAL) == State(0x497093c0, 0x78dd4d2b, 0x030f7cad, 0x4405957e, 0x0677e9eb);
    assert Steps(m, 70, INITIAL) == State(0x3f2588c2, 0x497093c0, 0xde37534a, 0x030f7cad, 0x4405957e);
    assert Steps(m, 71, INITIAL) == State(0xc199f8c7, 0x3f2588c2, 0x125c24f0, 0xde37534a, 0x030f7cad);
    assert Steps(m, 72, INITIAL) == State(0x39859de7, 0xc199f8c7, 0x8fc96230, 0x125c24f0, 0xde37534a);
    Steps72To75();
    assert Steps(m, 73, INITIAL) == State(0xedb42de4, 0x39859de7, 0xf0667e31, 0x8fc96230, 0x125c24f0);
    assert Steps(m, 74, INITIAL) == State(0x11793f6f, 0xedb42de4, 0xce616779, 0xf0667e31, 0x8fc96230);
    assert Steps(m, 75, INITIAL) == State(0x5ee76897, 0x11793f6f, 0x3b6d0b79, 0xce616779, 0xf0667e31);
    assert Steps(m, 76, INITIAL) == State(0x63f7dab7, 0x5ee76897, 0xc45e4fdb, 0x3b6d0b79, 0xce616779);
    Steps76To79();
    assert Steps(m, 77, INITIAL) == State(0xa079b7d9, 0x63f7dab7, 0xd7b9da25, 0xc45e4fdb, 0x3b6d0b79);
    assert Steps(m, 78, INITIAL) == State(0x860d21cc, 0xa079b7d9, 0xd8fdf6ad, 0xd7b9da25, 0xc45e4fdb);
    assert Steps(m, 79, INITIAL) == State(0x5738d5e1, 0x860d21cc, 0x681e6df6, 0xd8fdf6ad, 0xd7b9da25);
    assert Steps(m, 80, INITIAL) == State(0x42541b35, 0x5738d5e1, 0x21834873, 0x681e6df6, 0xd8fdf6ad);
  }

  lemma Compressed(m: Block)
    requires IsAbc(m)
    ensures Compress(INITIAL, m) == State(0xa9993e36, 0x4706816a, 0xba3e2571, 0x7850c26c, 0x9cd0d89d)
  {
    assert Steps(m, 0, INITIAL) == State(0x67452301, 0xefcdab89, 0x98badcfe, 0x10325476, 0xc3d2e1f0);
    hide Steps, IsAbc;
    Steps0To19(m);
    Steps20To39(m);
    Steps40To59(m);
    Steps60To79(m);
  }

  /** The bytes of "abc". */
  const ABC: seq<Byte> := [0x61, 0x62, 0x63]

  lemma NoHighBytes(n: nat, k: nat)
    requires n < 256 && 0 < k < 8
    ensures CountByte(n, k) == 0
  {}

  lemma LowByteOf24()
    ensures CountByte(24, 0) == 24
  {
    assert 24 % 256 == 24 && (24 as Byte) == 24;
  }

  lemma LengthOfAbc()
    ensures BigEndianLength(24) == [0, 0, 0, 0, 0, 0, 0, 24]
  {
    assert 24 % TWO_TO_THE_64 == 24;
    hide CountByte;
    NoHighBytes(24, 7);
    NoHighBytes(24, 6);
    NoHighBytes(24, 5);
    NoHighBytes(24, 4);
    NoHighBytes(24, 3);
    NoHighBytes(24, 2);
    NoHighBytes(24, 1);
    LowByteOf24();
  }

  lemma PaddedAbc(m: Block)
    requires IsAbc(m)
    ensures Pad(ABC) == m
  {
    hide BigEndianLength;
    LengthOfAbc();
    assert Filler(3) == [0x80] + Zeros(52);
  }

  const DIGEST: seq<Byte> := [0xa9, 0x99, 0x3e, 0x36, 0x47, 0x06, 0x81, 0x6a, 0xba, 0x3e,
                              0x25, 0x71, 0x78, 0x50, 0xc2, 0x6c, 0x9c, 0xd0, 0xd8, 0x9d]

  lemma BytesOfResult()
    ensures VarsBytes(State(0xa9993e36, 0x4706816a, 0xba3e2571, 0x7850c26c, 0x9cd0d89d))
         == DIGEST
  {}

  /** SHA-1("abc") = a9993e36 4706816a ba3e2571 7850c26c 9cd0d89d */
  lemma DigestOfAbc()
    ensures Digest(ABC) == DIGEST
  {
    var m: Block := [0x61, 0x62, 0x63, 0x80] + Zeros(59) + [24];
    PaddedAbc(m);
    Compressed(m);
    BytesOfResult();
    hide Compress, VarsBytes, Pad, State;
    FoldOneMore(Compress, INITIAL, [], m);
    assert [] + m == m;
  }
}
