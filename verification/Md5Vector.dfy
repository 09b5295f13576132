// The digest of the letters from a to z, a test vector of RFC 1321 (section A.5
// of its appendix): the tables and the constants give the published number.
module Md5Vector {
  import opened Bytes
  import opened Md5Mix
  import opened Md5Block
  import opened Md5

  // The words of its one block.
  const X: seq<Word> := [0x64636261, 0x68676665, 0x6c6b6a69, 0x706f6e6d,
                         0x74737271, 0x78777675, 0x00807a79, 0x00000000,
                         0x00000000, 0x00000000, 0x00000000, 0x00000000,
                         0x00000000, 0x00000000, 0x000000d0, 0x00000000]

  lemma XIs()
    ensures |X| == 16
    ensures X[0] == 0x64636261 && X[1] == 0x68676665 && X[2] == 0x6c6b6a69 && X[3] == 0x706f6e6d
    ensures X[4] == 0x74737271 && X[5] == 0x78777675 && X[6] == 0x00807a79 && X[7] == 0x00000000
    ensures X[8] == 0x00000000 && X[9] == 0x00000000 && X[10] == 0x00000000 && X[11] == 0x00000000
    ensures X[12] == 0x00000000 && X[13] == 0x00000000 && X[14] == 0x000000d0 && X[15] == 0x00000000
  {
  }

  // Four operations, told by their results.
  lemma GroupIs(st: State, x: seq<Word>, g: nat, a: Word, b: Word, c: Word, d: Word)
    requires |x| == 16
    requires var r, s, t := g / 4, Shifts(g / 4), Sines(g);
             && Operation(r, st.a, st.b, st.c, st.d, x[Index(r, 4 * (g % 4))], s.0, t.0) == a
             && Operation(r, st.d, a, st.b, st.c, x[Index(r, 4 * (g % 4) + 1)], s.1, t.1) == d
             && Operation(r, st.c, d, a, st.b, x[Index(r, 4 * (g % 4) + 2)], s.2, t.2) == c
             && Operation(r, st.b, c, d, a, x[Index(r, 4 * (g % 4) + 3)], s.3, t.3) == b
    ensures Group(st, x, g) == State(a, b, c, d)
  {
    hide Operation;
  }

  // ----- The sixteen groups -----

  lemma Op0()
    ensures Operation(0, 0x67452301, 0xefcdab89, 0x98badcfe, 0x10325476, 0x64636261, 7, 0xd76aa478)
         == 0xd6d117a6
  {
  }

  lemma Op1()
    ensures Operation(0, 0x10325476, 0xd6d117a6, 0xefcdab89, 0x98badcfe, 0x68676665, 12, 0xe8c7b756)
         == 0xaab1aaaa
  {
  }

  lemma Op2()
    ensures Operation(0, 0x98badcfe, 0xaab1aaaa, 0xd6d117a6, 0xefcdab89, 0x6c6b6a69, 17, 0x242070db)
         == 0x227d8cf1
  {
  }

  lemma Op3()
    ensures Operation(0, 0xefcdab89, 0x227d8cf1, 0xaab1aaaa, 0xd6d117a6, 0x706f6e6d, 22, 0xc1bdceee)
         == 0x4503b812
  {
  }

  lemma Row0()
    ensures Shifts(0) == (7, 12, 17, 22)
    ensures Sines(0) == (0xd76aa478, 0xe8c7b756, 0x242070db, 0xc1bdceee)
  {
  }

  lemma Taken0()
    ensures |X| == 16
    ensures X[Index(0, 0)] == 0x64636261 && X[Index(0, 1)] == 0x68676665
    ensures X[Index(0, 2)] == 0x6c6b6a69 && X[Index(0, 3)] == 0x706f6e6d
  {
    XIs();
    hide X;
  }

  lemma Group0()
    ensures Group(State(0x67452301, 0xefcdab89, 0x98badcfe, 0x10325476), X, 0)
         == State(0xd6d117a6, 0x4503b812, 0x227d8cf1, 0xaab1aaaa)
  {
    hide Operation, Group, Shifts, Sines, Index, X;
    Row0();
    Taken0();
    Op0();
    Op1();
    Op2();
    Op3();
    GroupIs(State(0x67452301, 0xefcdab89, 0x98badcfe, 0x10325476), X, 0,
            0xd6d117a6, 0x4503b812, 0x227d8cf1, 0xaab1aaaa);
  }

  lemma Op4()
    ensures Operation(0, 0xd6d117a6, 0x4503b812, 0x227d8cf1, 0xaab1aaaa, 0x74737271, 7, 0xf57c0faf)
         == 0xfe15f787
  {
  }

  lemma Op5()
    ensures Operation(0, 0xaab1aaaa, 0xfe15f787, 0x4503b812, 0x227d8cf1, 0x78777675, 12, 0x4787c62a)
         == 0xa811b278
  {
  }

  lemma Op6()
    ensures Operation(0, 0x227d8cf1, 0xa811b278, 0xfe15f787, 0x4503b812, 0x00807a79, 17, 0xa8304613)
         == 0xb71122fc
  {
  }

  lemma Op7()
    ensures Operation(0, 0x4503b812, 0xb71122fc, 0xa811b278, 0xfe15f787, 0x00000000, 22, 0xfd469501)
         == 0xda9bbb0d
  {
  }

  lemma Row1()
    ensures Shifts(0) == (7, 12, 17, 22)
    ensures Sines(1) == (0xf57c0faf, 0x4787c62a, 0xa8304613, 0xfd469501)
  {
  }

  lemma Taken1()
    ensures |X| == 16
    ensures X[Index(0, 4)] == 0x74737271 && X[Index(0, 5)] == 0x78777675
    ensures X[Index(0, 6)] == 0x00807a79 && X[Index(0, 7)] == 0x00000000
  {
    XIs();
    hide X;
  }

  lemma Group1()
    ensures Group(State(0xd6d117a6, 0x4503b812, 0x227d8cf1, 0xaab1aaaa), X, 1)
         == State(0xfe15f787, 0xda9bbb0d, 0xb71122fc, 0xa811b278)
  {
    hide Operation, Group, Shifts, Sines, Index, X;
    Row1();
    Taken1();
    Op4();
    Op5();
    Op6();
    Op7();
    GroupIs(State(0xd6d117a6, 0x4503b812, 0x227d8cf1, 0xaab1aaaa), X, 1,
            0xfe15f787, 0xda9bbb0d, 0xb71122fc, 0xa811b278);
  }

  lemma Op8()
    ensures Operation(0, 0xfe15f787, 0xda9bbb0d, 0xb71122fc, 0xa811b278, 0x00000000, 7, 0x698098d8)
         == 0xae752899
  {
  }

  lemma Op9()
    ensures Operation(0, 0xa811b278, 0xae752899, 0xda9bbb0d, 0xb71122fc, 0x00000000, 12, 0x8b44f7af)
         == 0x2bbe757f
  {
  }

  lemma Op10()
    ensures Operation(0, 0xb71122fc, 0x2bbe757f, 0xae752899, 0xda9bbb0d, 0x00000000, 17, 0xffff5bb1)
         == 0x7d4bd80b
  {
  }

  lemma Op11()
    ensures Operation(0, 0xda9bbb0d, 0x7d4bd80b, 0x2bbe757f, 0xae752899, 0x00000000, 22, 0x895cd7be)
         == 0x56cfa5cb
  {
  }

  lemma Row2()
    ensures Shifts(0) == (7, 12, 17, 22)
    ensures Sines(2) == (0x698098d8, 0x8b44f7af, 0xffff5bb1, 0x895cd7be)
  {
  }

  lemma Taken2()
    ensures |X| == 16
    ensures X[Index(0, 8)] == 0x00000000 && X[Index(0, 9)] == 0x00000000
    ensures X[Index(0, 10)] == 0x00000000 && X[Index(0, 11)] == 0x00000000
  {
    XIs();
    hide X;
  }

  lemma Group2()
    ensures Group(State(0xfe15f787, 0xda9bbb0d, 0xb71122fc, 0xa811b278), X, 2)
         == State(0xae752899, 0x56cfa5cb, 0x7d4bd80b, 0x2bbe757f)
  {
    hide Operation, Group, Shifts, Sines, Index, X;
    Row2();
    Taken2();
    Op8();
    Op9();
    Op10();
    Op11();
    GroupIs(State(0xfe15f787, 0xda9bbb0d, 0xb71122fc, 0xa811b278), X, 2,
            0xae752899, 0x56cfa5cb, 0x7d4bd80b, 0x2bbe757f);
  }

  lemma Op12()
    ensures Operation(0, 0xae752899, 0x56cfa5cb, 0x7d4bd80b, 0x2bbe757f, 0x00000000, 7, 0x6b901122)
         == 0x1754a316
  {
  }

  lemma Op13()
    ensures Operation(0, 0x2bbe757f, 0x1754a316, 0x56cfa5cb, 0x7d4bd80b, 0x00000000, 12, 0xfd987193)
         == 0x85567d90
  {
  }

  lemma Op14()
    ensures Operation(0, 0x7d4bd80b, 0x85567d90, 0x1754a316, 0x56cfa5cb, 0x000000d0, 17, 0xa679438e)
         == 0x00df74d5
  {
  }

  lemma Op15()
    ensures Operation(0, 0x56cfa5cb, 0x00df74d5, 0x85567d90, 0x1754a316, 0x00000000, 22, 0x49b40821)
         == 0x608d6b7e
  {
  }

  lemma Row3()
    ensures Shifts(0) == (7, 12, 17, 22)
    ensures Sines(3) == (0x6b901122, 0xfd987193, 0xa679438e, 0x49b40821)
  {
  }

  lemma Taken3()
    ensures |X| == 16
    ensures X[Index(0, 12)] == 0x00000000 && X[Index(0, 13)] == 0x00000000
    ensures X[Index(0, 14)] == 0x000000d0 && X[Index(0, 15)] == 0x00000000
  {
    XIs();
    hide X;
  }

  lemma Group3()
    ensures Group(State(0xae752899, 0x56cfa5cb, 0x7d4bd80b, 0x2bbe757f), X, 3)
         == State(0x1754a316, 0x608d6b7e, 0x00df74d5, 0x85567d90)
  {
    hide Operation, Group, Shifts, Sines, Index, X;
    Row3();
    Taken3();
    Op12();
    Op13();
    Op14();
    Op15();
    GroupIs(State(0xae752899, 0x56cfa5cb, 0x7d4bd80b, 0x2bbe757f), X, 3,
            0x1754a316, 0x608d6b7e, 0x00df74d5, 0x85567d90);
  }

  lemma Op16()
    ensures Operation(1, 0x1754a316, 0x608d6b7e, 0x00df74d5, 0x85567d90, 0x68676665, 5, 0xf61e2562)
         == 0x2d8071cc
  {
  }

  lemma Op17()
    ensures Operation(1, 0x85567d90, 0x2d8071cc, 0x608d6b7e, 0x00df74d5, 0x00807a79, 9, 0xc040b340)
         == 0x5dcee119
  {
  }

  lemma Op18()
    ensures Operation(1, 0x00df74d5, 0x5dcee119, 0x2d8071cc, 0x608d6b7e, 0x00000000, 14, 0x265e5a51)
         == 0xedfe7e4b
  {
  }

  lemma Op19()
    ensures Operation(1, 0x608d6b7e, 0xedfe7e4b, 0x5dcee119, 0x2d8071cc, 0x64636261, 20, 0xe9b6c7aa)
         == 0x4c2145b3
  {
  }

  lemma Row4()
    ensures Shifts(1) == (5, 9, 14, 20)
    ensures Sines(4) == (0xf61e2562, 0xc040b340, 0x265e5a51, 0xe9b6c7aa)
  {
  }

  lemma Taken4()
    ensures |X| == 16
    ensures X[Index(1, 0)] == 0x68676665 && X[Index(1, 1)] == 0x00807a79
    ensures X[Index(1, 2)] == 0x00000000 && X[Index(1, 3)] == 0x64636261
  {
    XIs();
    hide X;
  }

  lemma Group4()
    ensures Group(State(0x1754a316, 0x608d6b7e, 0x00df74d5, 0x85567d90), X, 4)
         == State(0x2d8071cc, 0x4c2145b3, 0xedfe7e4b, 0x5dcee119)
  {
    hide Operation, Group, Shifts, Sines, Index, X;
    Row4();
    Taken4();
    Op16();
    Op17();
    Op18();
    Op19();
    GroupIs(State(0x1754a316, 0x608d6b7e, 0x00df74d5, 0x85567d90), X, 4,
            0x2d8071cc, 0x4c2145b3, 0xedfe7e4b, 0x5dcee119);
  }

  lemma Op20()
    ensures Operation(1, 0x2d8071cc, 0x4c2145b3, 0xedfe7e4b, 0x5dcee119, 0x78777675, 5, 0xd62f105d)
         == 0x570c43e0
  {
  }

  lemma Op21()
    ensures Operation(1, 0x5dcee119, 0x570c43e0, 0x4c2145b3, 0xedfe7e4b, 0x00000000, 9, 0x02441453)
         == 0x977efd2a
  {
  }

  lemma Op22()
    ensures Operation(1, 0xedfe7e4b, 0x977efd2a, 0x570c43e0, 0x4c2145b3, 0x00000000, 14, 0xd8a1e681)
         == 0xc28ab49d
  {
  }

  lemma Op23()
    ensures Operation(1, 0x4c2145b3, 0xc28ab49d, 0x977efd2a, 0x570c43e0, 0x74737271, 20, 0xe7d3fbc8)
         == 0xc9f162d4
  {
  }

  lemma Row5()
    ensures Shifts(1) == (5, 9, 14, 20)
    ensures Sines(5) == (0xd62f105d, 0x02441453, 0xd8a1e681, 0xe7d3fbc8)
  {
  }

  lemma Taken5()
    ensures |X| == 16
    ensures X[Index(1, 4)] == 0x78777675 && X[Index(1, 5)] == 0x00000000
    ensures X[Index(1, 6)] == 0x00000000 && X[Index(1, 7)] == 0x74737271
  {
    XIs();
    hide X;
  }

  lemma Group5()
    ensures Group(State(0x2d8071cc, 0x4c2145b3, 0xedfe7e4b, 0x5dcee119), X, 5)
         == State(0x570c43e0, 0xc9f162d4, 0xc28ab49d, 0x977efd2a)
  {
    hide Operation, Group, Shifts, Sines, Index, X;
    Row5();
    Taken5();
    Op20();
    Op21();
    Op22();
    Op23();
    GroupIs(State(0x2d8071cc, 0x4c2145b3, 0xedfe7e4b, 0x5dcee119), X, 5,
            0x570c43e0, 0xc9f162d4, 0xc28ab49d, 0x977efd2a);
  }

  lemma Op24()
    ensures Operation(1, 0x570c43e0, 0xc9f162d4, 0xc28ab49d, 0x977efd2a, 0x00000000, 5, 0x21e1cde6)
         == 0x25bfae3b
  {
  }

  lemma Op25()
    ensures Operation(1, 0x977efd2a, 0x25bfae3b, 0xc9f162d4, 0xc28ab49d, 0x000000d0, 9, 0xc33707d6)
         == 0x89980104
  {
  }

  lemma Op26()
    ensures Operation(1, 0xc28ab49d, 0x89980104, 0x25bfae3b, 0xc9f162d4, 0x706f6e6d, 14, 0xf4d50d87)
         == 0xf8c8365f
  {
  }

  lemma Op27()
    ensures Operation(1, 0xc9f162d4, 0xf8c8365f, 0x89980104, 0x25bfae3b, 0x00000000, 20, 0x455a14ed)
         == 0xe6d3b398
  {
  }

  lemma Row6()
    ensures Shifts(1) == (5, 9, 14, 20)
    ensures Sines(6) == (0x21e1cde6, 0xc33707d6, 0xf4d50d87, 0x455a14ed)
  {
  }

  lemma Taken6()
    ensures |X| == 16
    ensures X[Index(1, 8)] == 0x00000000 && X[Index(1, 9)] == 0x000000d0
    ensures X[Index(1, 10)] == 0x706f6e6d && X[Index(1, 11)] == 0x00000000
  {
    XIs();
    hide X;
  }

  lemma Group6()
    ensures Group(State(0x570c43e0, 0xc9f162d4, 0xc28ab49d, 0x977efd2a), X, 6)
         == State(0x25bfae3b, 0xe6d3b398, 0xf8c8365f, 0x89980104)
  {
    hide Operation, Group, Shifts, Sines, Index, X;
    Row6();
    Taken6();
    Op24();
    Op25();
    Op26();
    Op27();
    GroupIs(State(0x570c43e0, 0xc9f162d4, 0xc28ab49d, 0x977efd2a), X, 6,
            0x25bfae3b, 0xe6d3b398, 0xf8c8365f, 0x89980104);
  }

  lemma Op28()
    ensures Operation(1, 0x25bfae3b, 0xe6d3b398, 0xf8c8365f, 0x89980104, 0x00000000, 5, 0xa9e3e905)
         == 0xf54d8710
  {
  }

  lemma Op29()
    ensures Operation(1, 0x89980104, 0xf54d8710, 0xe6d3b398, 0xf8c8365f, 0x6c6b6a69, 9, 0xfcefa3f8)
         == 0x927b72e2
  {
  }

  lemma Op30()
    ensures Operation(1, 0xf8c8365f, 0x927b72e2, 0xf54d8710, 0xe6d3b398, 0x00000000, 14, 0x676f02d9)
         == 0x2e69afc7
  {
  }

  lemma Op31()
    ensures Operation(1, 0xe6d3b398, 0x2e69afc7, 0x927b72e2, 0xf54d8710, 0x00000000, 20, 0x8d2a4c8a)
         == 0xaeb35766
  {
  }

  lemma Row7()
    ensures Shifts(1) == (5, 9, 14, 20)
    ensures Sines(7) == (0xa9e3e905, 0xfcefa3f8, 0x676f02d9, 0x8d2a4c8a)
  {
  }

  lemma Taken7()
    ensures |X| == 16
    ensures X[Index(1, 12)] == 0x00000000 && X[Index(1, 13)] == 0x6c6b6a69
    ensures X[Index(1, 14)] == 0x00000000 && X[Index(1, 15)] == 0x00000000
  {
    XIs();
    hide X;
  }

  lemma Group7()
    ensures Group(State(0x25bfae3b, 0xe6d3b398, 0xf8c8365f, 0x89980104), X, 7)
         == State(0xf54d8710, 0xaeb35766, 0x2e69afc7, 0x927b72e2)
  {
    hide Operation, Group, Shifts, Sines, Index, X;
    Row7();
    Taken7();
    Op28();
    Op29();
    Op30();
    Op31();
    GroupIs(State(0x25bfae3b, 0xe6d3b398, 0xf8c8365f, 0x89980104), X, 7,
            0xf54d8710, 0xaeb35766, 0x2e69afc7, 0x927b72e2);
  }

  lemma Op32()
    ensures Operation(2, 0xf54d8710, 0xaeb35766, 0x2e69afc7, 0x927b72e2, 0x78777675, 4, 0xfffa3942)
         == 0xb4bf680e
  {
  }

  lemma Op33()
    ensures Operation(2, 0x927b72e2, 0xb4bf680e, 0xaeb35766, 0x2e69afc7, 0x00000000, 11, 0x8771f681)
         == 0x4c8ffa80
  {
  }

  lemma Op34()
    ensures Operation(2, 0x2e69afc7, 0x4c8ffa80, 0xb4bf680e, 0xaeb35766, 0x00000000, 16, 0x6d9d6122)
         == 0x2361ed0a
  {
  }

  lemma Op35()
    ensures Operation(2, 0xaeb35766, 0x2361ed0a, 0x4c8ffa80, 0xb4bf680e, 0x000000d0, 23, 0xfde5380c)
         == 0x06a5e211
  {
  }

  lemma Row8()
    ensures Shifts(2) == (4, 11, 16, 23)
    ensures Sines(8) == (0xfffa3942, 0x8771f681, 0x6d9d6122, 0xfde5380c)
  {
  }

  lemma Taken8()
    ensures |X| == 16
    ensures X[Index(2, 0)] == 0x78777675 && X[Index(2, 1)] == 0x00000000
    ensures X[Index(2, 2)] == 0x00000000 && X[Index(2, 3)] == 0x000000d0
  {
    XIs();
    hide X;
  }

  lemma Group8()
    ensures Group(State(0xf54d8710, 0xaeb35766, 0x2e69afc7, 0x927b72e2), X, 8)
         == State(0xb4bf680e, 0x06a5e211, 0x2361ed0a, 0x4c8ffa80)
  {
    hide Operation, Group, Shifts, Sines, Index, X;
    Row8();
    Taken8();
    Op32();
    Op33();
    Op34();
    Op35();
    GroupIs(State(0xf54d8710, 0xaeb35766, 0x2e69afc7, 0x927b72e2), X, 8,
            0xb4bf680e, 0x06a5e211, 0x2361ed0a, 0x4c8ffa80);
  }

  lemma Op36()
    ensures Operation(2, 0xb4bf680e, 0x06a5e211, 0x2361ed0a, 0x4c8ffa80, 0x68676665, 4, 0xa4beea44)
         == 0xb9c0c733
  {
  }

  lemma Op37()
    ensures Operation(2, 0x4c8ffa80, 0xb9c0c733, 0x06a5e211, 0x2361ed0a, 0x74737271, 11, 0x4bdecfa9)
         == 0xf1e6dc7a
  {
  }

  lemma Op38()
    ensures Operation(2, 0x2361ed0a, 0xf1e6dc7a, 0xb9c0c733, 0x06a5e211, 0x00000000, 16, 0xf6bb4b60)
         == 0x23a9451b
  {
  }

  lemma Op39()
    ensures Operation(2, 0x06a5e211, 0x23a9451b, 0xf1e6dc7a, 0xb9c0c733, 0x00000000, 23, 0xbebfbc70)
         == 0x8d41bf99
  {
  }

  lemma Row9()
    ensures Shifts(2) == (4, 11, 16, 23)
    ensures Sines(9) == (0xa4beea44, 0x4bdecfa9, 0xf6bb4b60, 0xbebfbc70)
  {
  }

  lemma Taken9()
    ensures |X| == 16
    ensures X[Index(2, 4)] == 0x68676665 && X[Index(2, 5)] == 0x74737271
    ensures X[Index(2, 6)] == 0x00000000 && X[Index(2, 7)] == 0x00000000
  {
    XIs();
    hide X;
  }

  lemma Group9()
    ensures Group(State(0xb4bf680e, 0x06a5e211, 0x2361ed0a, 0x4c8ffa80), X, 9)
         == State(0xb9c0c733, 0x8d41bf99, 0x23a9451b, 0xf1e6dc7a)
  {
    hide Operation, Group, Shifts, Sines, Index, X;
    Row9();
    Taken9();
    Op36();
    Op37();
    Op38();
    Op39();
    GroupIs(State(0xb4bf680e, 0x06a5e211, 0x2361ed0a, 0x4c8ffa80), X, 9,
            0xb9c0c733, 0x8d41bf99, 0x23a9451b, 0xf1e6dc7a);
  }

  lemma Op40()
    ensures Operation(2, 0xb9c0c733, 0x8d41bf99, 0x23a9451b, 0xf1e6dc7a, 0x00000000, 4, 0x289b7ec6)
         == 0xa3e88ead
  {
  }

  lemma Op41()
    ensures Operation(2, 0xf1e6dc7a, 0xa3e88ead, 0x8d41bf99, 0x23a9451b, 0x64636261, 11, 0xeaa127fa)
         == 0x02c0b11c
  {
  }

  lemma Op42()
    ensures Operation(2, 0x23a9451b, 0x02c0b11c, 0xa3e88ead, 0x8d41bf99, 0x706f6e6d, 16, 0xd4ef3085)
         == 0x66f6468d
  {
  }

  lemma Op43()
    ensures Operation(2, 0x8d41bf99, 0x66f6468d, 0x02c0b11c, 0xa3e88ead, 0x00807a79, 23, 0x04881d05)
         == 0x90a35af5
  {
  }

  lemma Row10()
    ensures Shifts(2) == (4, 11, 16, 23)
    ensures Sines(10) == (0x289b7ec6, 0xeaa127fa, 0xd4ef3085, 0x04881d05)
  {
  }

  lemma Taken10()
    ensures |X| == 16
    ensures X[Index(2, 8)] == 0x00000000 && X[Index(2, 9)] == 0x64636261
    ensures X[Index(2, 10)] == 0x706f6e6d && X[Index(2, 11)] == 0x00807a79
  {
    XIs();
    hide X;
  }

  lemma Group10()
    ensures Group(State(0xb9c0c733, 0x8d41bf99, 0x23a9451b, 0xf1e6dc7a), X, 10)
         == State(0xa3e88ead, 0x90a35af5, 0x66f6468d, 0x02c0b11c)
  {
    hide Operation, Group, Shifts, Sines, Index, X;
    Row10();
    Taken10();
    Op40();
    Op41();
    Op42();
    Op43();
    GroupIs(State(0xb9c0c733, 0x8d41bf99, 0x23a9451b, 0xf1e6dc7a), X, 10,
            0xa3e88ead, 0x90a35af5, 0x66f6468d, 0x02c0b11c);
  }

  lemma Op44()
    ensures Operation(2, 0xa3e88ead, 0x90a35af5, 0x66f6468d, 0x02c0b11c, 0x00000000, 4, 0xd9d4d039)
         == 0xb5d41f9c
  {
  }

  lemma Op45()
    ensures Operation(2, 0x02c0b11c, 0xb5d41f9c, 0x90a35af5, 0x66f6468d, 0x00000000, 11, 0xe6db99e5)
         == 0xa04b4904
  {
  }

  lemma Op46()
    ensures Operation(2, 0x66f6468d, 0xa04b4904, 0xb5d41f9c, 0x90a35af5, 0x00000000, 16, 0x1fa27cf8)
         == 0x703d54d8
  {
  }

  lemma Op47()
    ensures Operation(2, 0x90a35af5, 0x703d54d8, 0xa04b4904, 0xb5d41f9c, 0x6c6b6a69, 23, 0xc4ac5665)
         == 0x71d10367
  {
  }

  lemma Row11()
    ensures Shifts(2) == (4, 11, 16, 23)
    ensures Sines(11) == (0xd9d4d039, 0xe6db99e5, 0x1fa27cf8, 0xc4ac5665)
  {
  }

  lemma Taken11()
    ensures |X| == 16
    ensures X[Index(2, 12)] == 0x00000000 && X[Index(2, 13)] == 0x00000000
    ensures X[Index(2, 14)] == 0x00000000 && X[Index(2, 15)] == 0x6c6b6a69
  {
    XIs();
    hide X;
  }

  lemma Group11()
    ensures Group(State(0xa3e88ead, 0x90a35af5, 0x66f6468d, 0x02c0b11c), X, 11)
         == State(0xb5d41f9c, 0x71d10367, 0x703d54d8, 0xa04b4904)
  {
    hide Operation, Group, Shifts, Sines, Index, X;
    Row11();
    Taken11();
    Op44();
    Op45();
    Op46();
    Op47();
    GroupIs(State(0xa3e88ead, 0x90a35af5, 0x66f6468d, 0x02c0b11c), X, 11,
            0xb5d41f9c, 0x71d10367, 0x703d54d8, 0xa04b4904);
  }

  lemma Op48()
    ensures Operation(3, 0xb5d41f9c, 0x71d10367, 0x703d54d8, 0xa04b4904, 0x64636261, 6, 0xf4292244)
         == 0xfc32dd6e
  {
  }

  lemma Op49()
    ensures Operation(3, 0xa04b4904, 0xfc32dd6e, 0x71d10367, 0x703d54d8, 0x00000000, 10, 0x432aff97)
         == 0x65456b34
  {
  }

  lemma Op50()
    ensures Operation(3, 0x703d54d8, 0x65456b34, 0xfc32dd6e, 0x71d10367, 0x000000d0, 15, 0xab9423a7)
         == 0xb35602cb
  {
  }

  lemma Op51()
    ensures Operation(3, 0x71d10367, 0xb35602cb, 0x65456b34, 0xfc32dd6e, 0x78777675, 21, 0xfc93a039)
         == 0x33edb197
  {
  }

  lemma Row12()
    ensures Shifts(3) == (6, 10, 15, 21)
    ensures Sines(12) == (0xf4292244, 0x432aff97, 0xab9423a7, 0xfc93a039)
  {
  }

  lemma Taken12()
    ensures |X| == 16
    ensures X[Index(3, 0)] == 0x64636261 && X[Index(3, 1)] == 0x00000000
    ensures X[Index(3, 2)] == 0x000000d0 && X[Index(3, 3)] == 0x78777675
  {
    XIs();
    hide X;
  }

  lemma Group12()
    ensures Group(State(0xb5d41f9c, 0x71d10367, 0x703d54d8, 0xa04b4904), X, 12)
         == State(0xfc32dd6e, 0x33edb197, 0xb35602cb, 0x65456b34)
  {
    hide Operation, Group, Shifts, Sines, Index, X;
    Row12();
    Taken12();
    Op48();
    Op49();
    Op50();
    Op51();
    GroupIs(State(0xb5d41f9c, 0x71d10367, 0x703d54d8, 0xa04b4904), X, 12,
            0xfc32dd6e, 0x33edb197, 0xb35602cb, 0x65456b34);
  }

  lemma Op52()
    ensures Operation(3, 0xfc32dd6e, 0x33edb197, 0xb35602cb, 0x65456b34, 0x00000000, 6, 0x655b59c3)
         == 0xc1e942f1
  {
  }

  lemma Op53()
    ensures Operation(3, 0x65456b34, 0xc1e942f1, 0x33edb197, 0xb35602cb, 0x706f6e6d, 10, 0x8f0ccc92)
         == 0xd9bb987c
  {
  }

  lemma Op54()
    ensures Operation(3, 0xb35602cb, 0xd9bb987c, 0xc1e942f1, 0x33edb197, 0x00000000, 15, 0xffeff47d)
         == 0x23a68048
  {
  }

  lemma Op55()
    ensures Operation(3, 0x33edb197, 0x23a68048, 0xd9bb987c, 0xc1e942f1, 0x68676665, 21, 0x85845dd1)
         == 0x83877d1b
  {
  }

  lemma Row13()
    ensures Shifts(3) == (6, 10, 15, 21)
    ensures Sines(13) == (0x655b59c3, 0x8f0ccc92, 0xffeff47d, 0x85845dd1)
  {
  }

  lemma Taken13()
    ensures |X| == 16
    ensures X[Index(3, 4)] == 0x00000000 && X[Index(3, 5)] == 0x706f6e6d
    ensures X[Index(3, 6)] == 0x00000000 && X[Index(3, 7)] == 0x68676665
  {
    XIs();
    hide X;
  }

  lemma Group13()
    ensures Group(State(0xfc32dd6e, 0x33edb197, 0xb35602cb, 0x65456b34), X, 13)
         == State(0xc1e942f1, 0x83877d1b, 0x23a68048, 0xd9bb987c)
  {
    hide Operation, Group, Shifts, Sines, Index, X;
    Row13();
    Taken13();
    Op52();
    Op53();
    Op54();
    Op55();
    GroupIs(State(0xfc32dd6e, 0x33edb197, 0xb35602cb, 0x65456b34), X, 13,
            0xc1e942f1, 0x83877d1b, 0x23a68048, 0xd9bb987c);
  }

  lemma Op56()
    ensures Operation(3, 0xc1e942f1, 0x83877d1b, 0x23a68048, 0xd9bb987c, 0x00000000, 6, 0x6fa87e4f)
         == 0x0077c208
  {
  }

  lemma Op57()
    ensures Operation(3, 0xd9bb987c, 0x0077c208, 0x83877d1b, 0x23a68048, 0x00000000, 10, 0xfe2ce6e0)
         == 0x847fc2e7
  {
  }

  lemma Op58()
    ensures Operation(3, 0x23a68048, 0x847fc2e7, 0x0077c208, 0x83877d1b, 0x00807a79, 15, 0xa3014314)
         == 0xa3e2247f
  {
  }

  lemma Op59()
    ensures Operation(3, 0x83877d1b, 0xa3e2247f, 0x847fc2e7, 0x0077c208, 0x00000000, 21, 0x4e0811a1)
         == 0x5e6bc930
  {
  }

  lemma Row14()
    ensures Shifts(3) == (6, 10, 15, 21)
    ensures Sines(14) == (0x6fa87e4f, 0xfe2ce6e0, 0xa3014314, 0x4e0811a1)
  {
  }

  lemma Taken14()
    ensures |X| == 16
    ensures X[Index(3, 8)] == 0x00000000 && X[Index(3, 9)] == 0x00000000
    ensures X[Index(3, 10)] == 0x00807a79 && X[Index(3, 11)] == 0x00000000
  {
    XIs();
    hide X;
  }

  lemma Group14()
    ensures Group(State(0xc1e942f1, 0x83877d1b, 0x23a68048, 0xd9bb987c), X, 14)
         == State(0x0077c208, 0x5e6bc930, 0xa3e2247f, 0x847fc2e7)
  {
    hide Operation, Group, Shifts, Sines, Index, X;
    Row14();
    Taken14();
    Op56();
    Op57();
    Op58();
    Op59();
    GroupIs(State(0xc1e942f1, 0x83877d1b, 0x23a68048, 0xd9bb987c), X, 14,
            0x0077c208, 0x5e6bc930, 0xa3e2247f, 0x847fc2e7);
  }

  lemma Op60()
    ensures Operation(3, 0x0077c208, 0x5e6bc930, 0xa3e2247f, 0x847fc2e7, 0x74737271, 6, 0xf7537e82)
         == 0x708ed9c2
  {
  }

  lemma Op61()
    ensures Operation(3, 0x847fc2e7, 0x708ed9c2, 0x5e6bc930, 0xa3e2247f, 0x00000000, 10, 0xbd3af235)
         == 0x2baf1354
  {
  }

  lemma Op62()
    ensures Operation(3, 0xa3e2247f, 0x2baf1354, 0x708ed9c2, 0x5e6bc930, 0x6c6b6a69, 15, 0x2ad7d2bb)
         == 0xd38f1e7f
  {
  }

  lemma Op63()
    ensures Operation(3, 0x5e6bc930, 0xd38f1e7f, 0x2baf1354, 0x708ed9c2, 0x00000000, 21, 0xeb86d391)
         == 0x1116e6d8
  {
  }

  lemma Row15()
    ensures Shifts(3) == (6, 10, 15, 21)
    ensures Sines(15) == (0xf7537e82, 0xbd3af235, 0x2ad7d2bb, 0xeb86d391)
  {
  }

  lemma Taken15()
    ensures |X| == 16
    ensures X[Index(3, 12)] == 0x74737271 && X[Index(3, 13)] == 0x00000000
    ensures X[Index(3, 14)] == 0x6c6b6a69 && X[Index(3, 15)] == 0x00000000
  {
    XIs();
    hide X;
  }

  lemma Group15()
    ensures Group(State(0x0077c208, 0x5e6bc930, 0xa3e2247f, 0x847fc2e7), X, 15)
         == State(0x708ed9c2, 0x1116e6d8, 0xd38f1e7f, 0x2baf1354)
  {
    hide Operation, Group, Shifts, Sines, Index, X;
    Row15();
    Taken15();
    Op60();
    Op61();
    Op62();
    Op63();
    GroupIs(State(0x0077c208, 0x5e6bc930, 0xa3e2247f, 0x847fc2e7), X, 15,
            0x708ed9c2, 0x1116e6d8, 0xd38f1e7f, 0x2baf1354);
  }

  // The sixteen groups in turn.
  lemma AllGroups()
    ensures Groups(INIT, X, 16) == State(0x708ed9c2, 0x1116e6d8, 0xd38f1e7f, 0x2baf1354)
  {
    hide Group, Groups, X;
    Taken0();
    NoGroups(INIT, X);
    Group0();
    NextGroup(INIT, X, 0);
    Group1();
    NextGroup(INIT, X, 1);
    Group2();
    NextGroup(INIT, X, 2);
    Group3();
    NextGroup(INIT, X, 3);
    Group4();
    NextGroup(INIT, X, 4);
    Group5();
    NextGroup(INIT, X, 5);
    Group6();
    NextGroup(INIT, X, 6);
    Group7();
    NextGroup(INIT, X, 7);
    Group8();
    NextGroup(INIT, X, 8);
    Group9();
    NextGroup(INIT, X, 9);
    Group10();
    NextGroup(INIT, X, 10);
    Group11();
    NextGroup(INIT, X, 11);
    Group12();
    NextGroup(INIT, X, 12);
    Group13();
    NextGroup(INIT, X, 13);
    Group14();
    NextGroup(INIT, X, 14);
    Group15();
    NextGroup(INIT, X, 15);
  }

  // ----- The block -----

  const LETTERS: seq<Byte> := seq(26, i requires 0 <= i < 26 => 'a' as int + i)

  // The letters, a one bit, zero bits and the length in bits.
  function ByteOf(p: nat): Byte {
    if p < 26 then 'a' as int + p else if p == 26 then 0x80 else if p == 56 then 208 else 0
  }

  lemma PaddedIs(p: nat)
    requires p < 64
    ensures |LETTERS + Padding(26)| == 64 && (LETTERS + Padding(26))[p] == ByteOf(p)
  {
    assert Le64(208) == [208, 0, 0, 0, 0, 0, 0, 0];
  }

  lemma FourIs(s: seq<Byte>, p: nat, a: Byte, b: Byte, c: Byte, d: Byte, w: Word)
    requires p + 4 <= |s| && s[p] == a && s[p + 1] == b && s[p + 2] == c && s[p + 3] == d
    requires (a as Word) | ((b as Word) << 8) | ((c as Word) << 16) | ((d as Word) << 24) == w
    ensures WordAt(s, p) == w
  {
  }

  lemma Word0(block: seq<Byte>)
    requires |block| == 64 && forall p :: 0 <= p < 64 ==> block[p] == ByteOf(p)
    ensures WordAt(block, 0) == 0x64636261
  {
    hide WordAt;
    FourIs(block, 0, 97, 98, 99, 100, 0x64636261);
  }

  lemma Word1(block: seq<Byte>)
    requires |block| == 64 && forall p :: 0 <= p < 64 ==> block[p] == ByteOf(p)
    ensures WordAt(block, 4) == 0x68676665
  {
    hide WordAt;
    FourIs(block, 4, 101, 102, 103, 104, 0x68676665);
  }

  lemma Word2(block: seq<Byte>)
    requires |block| == 64 && forall p :: 0 <= p < 64 ==> block[p] == ByteOf(p)
    ensures WordAt(block, 8) == 0x6c6b6a69
  {
    hide WordAt;
    FourIs(block, 8, 105, 106, 107, 108, 0x6c6b6a69);
  }

  lemma Word3(block: seq<Byte>)
    requires |block| == 64 && forall p :: 0 <= p < 64 ==> block[p] == ByteOf(p)
    ensures WordAt(block, 12) == 0x706f6e6d
  {
    hide WordAt;
    FourIs(block, 12, 109, 110, 111, 112, 0x706f6e6d);
  }

  lemma Word4(block: seq<Byte>)
    requires |block| == 64 && forall p :: 0 <= p < 64 ==> block[p] == ByteOf(p)
    ensures WordAt(block, 16) == 0x74737271
  {
    hide WordAt;
    FourIs(block, 16, 113, 114, 115, 116, 0x74737271);
  }

  lemma Word5(block: seq<Byte>)
    requires |block| == 64 && forall p :: 0 <= p < 64 ==> block[p] == ByteOf(p)
    ensures WordAt(block, 20) == 0x78777675
  {
    hide WordAt;
    FourIs(block, 20, 117, 118, 119, 120, 0x78777675);
  }

  lemma Word6(block: seq<Byte>)
    requires |block| == 64 && forall p :: 0 <= p < 64 ==> block[p] == ByteOf(p)
    ensures WordAt(block, 24) == 0x00807a79
  {
    hide WordAt;
    FourIs(block, 24, 121, 122, 128, 0, 0x00807a79);
  }

  lemma LetterWord(block: seq<Byte>, k: nat)
    requires |block| == 64 && k < 7 && forall p :: 0 <= p < 64 ==> block[p] == ByteOf(p)
    ensures WordAt(block, 4 * k) == X[k]
  {
    hide X, WordAt, ByteOf;
    XIs();
    Word0(block);
    Word1(block);
    Word2(block);
    Word3(block);
    Word4(block);
    Word5(block);
    Word6(block);
  }

  lemma ZeroWord(block: seq<Byte>, p: nat)
    requires p + 4 <= |block| && block[p] == 0 && block[p + 1] == 0 && block[p + 2] == 0 && block[p + 3] == 0
    ensures WordAt(block, p) == 0
  {
    hide WordAt;
    FourIs(block, p, 0, 0, 0, 0, 0);
  }

  lemma LengthWord(block: seq<Byte>, p: nat)
    requires p + 4 <= |block| && block[p] == 208 && block[p + 1] == 0 && block[p + 2] == 0 && block[p + 3] == 0
    ensures WordAt(block, p) == 0xd0
  {
    hide WordAt;
    FourIs(block, p, 208, 0, 0, 0, 0xd0);
  }

  lemma RestWord(block: seq<Byte>, k: nat)
    requires |block| == 64 && 7 <= k < 16 && forall p :: 0 <= p < 64 ==> block[p] == ByteOf(p)
    ensures WordAt(block, 4 * k) == X[k]
  {
    hide X, WordAt;
    XIs();
    if k == 14 {
      LengthWord(block, 4 * k);
    } else {
      ZeroWord(block, 4 * k);
    }
  }

  lemma WordsAre(block: seq<Byte>)
    requires |block| == 64 && forall p :: 0 <= p < 64 ==> block[p] == ByteOf(p)
    ensures |X| == 16 && Words(block) == X
  {
    hide X, WordAt, ByteOf;
    XIs();
    forall k | 0 <= k < 16 ensures Words(block)[k] == X[k] {
      if k < 7 {
        LetterWord(block, k);
      } else {
        RestWord(block, k);
      }
    }
  }

  lemma FoldOne(st: State, block: seq<Byte>)
    requires |block| == 64
    ensures Fold(st, block) == Transform(st, block)
  {
    hide Transform;
    assert block[..64] == block && block[64..] == [];
  }

  // ----- The digest -----

  lemma SumIs()
    ensures Sum(State(0x708ed9c2, 0x1116e6d8, 0xd38f1e7f, 0x2baf1354), INIT)
         == State(0xd7d3fcc3, 0x00e49261, 0x6c49fb7d, 0x3be167ca)
  {
  }

  lemma BytesOf(w: Word, n: int, s: seq<Byte>)
    requires w as int == n
    requires s == [n % 0x100, n / 0x100 % 0x100, n / 0x1_0000 % 0x100, n / 0x100_0000 % 0x100]
    ensures Le32(w as int) == s
  {
  }

  lemma DigestIs()
    ensures Digest(State(0xd7d3fcc3, 0x00e49261, 0x6c49fb7d, 0x3be167ca))
         == [0xc3, 0xfc, 0xd3, 0xd7, 0x61, 0x92, 0xe4, 0x00,
             0x7d, 0xfb, 0x49, 0x6c, 0xca, 0x67, 0xe1, 0x3b]
  {
    hide Le32;
    BytesOf(0xd7d3fcc3, 3620994243, [0xc3, 0xfc, 0xd3, 0xd7]);
    BytesOf(0x00e49261, 14979681, [0x61, 0x92, 0xe4, 0x00]);
    BytesOf(0x6c49fb7d, 1816787837, [0x7d, 0xfb, 0x49, 0x6c]);
    BytesOf(0x3be167ca, 1004627914, [0xca, 0x67, 0xe1, 0x3b]);
  }

  // MD5 ("abcdefghijklmnopqrstuvwxyz") = c3fcd3d76192e4007dfb496cca67e13b
  lemma LettersDigest()
    ensures Hash(LETTERS) == [0xc3, 0xfc, 0xd3, 0xd7, 0x61, 0x92, 0xe4, 0x00,
                                0x7d, 0xfb, 0x49, 0x6c, 0xca, 0x67, 0xe1, 0x3b]
  {
    hide Fold, Transform, Words, Groups, Sum, Digest, INIT, X, Padding, ByteOf;
    var block := LETTERS + Padding(26);
    forall p | 0 <= p < 64 ensures |block| == 64 && block[p] == ByteOf(p) {
      PaddedIs(p);
    }
    PaddedIs(0);
    WordsAre(block);
    FoldOne(INIT, block);
    TransformIs(INIT, block, X);
    AllGroups();
    SumIs();
    DigestIs();
  }
}
