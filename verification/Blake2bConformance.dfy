/**
 The definitions of BLAKE2b against RFC 7693: its constants by the rules of sections 2.6 and 2.7, the round on columns
 and diagonals, and the test vector of appendix A, BLAKE2b-512 of "abc", computed through all twelve rounds.
 */
module Blake2bConformance {
  import opened ByteStrings
  import opened Crypto
  import Words
  import opened Blake2bRounds
  import opened Blake2bStream

  // ---- the constants ------------------------------------------------------------------------------------------

  function Prime(i: nat): nat {
    if i == 0 then 2 else if i == 1 then 3 else if i == 2 then 5 else if i == 3 then 7
    else if i == 4 then 11 else if i == 5 then 13 else if i == 6 then 17 else 19
  }

  function IntegerRoot(n: nat): nat { if n < 4 then 1 else if n < 9 then 2 else if n < 16 then 3 else 4 }

  /** Word i of IV is the first 64 bits of the fractional part of the square root of the i-th prime. */
  lemma IVIsRoots(i: nat)
    requires i < 8
    ensures var r := IntegerRoot(Prime(i)) * TWO64 + IV()[i].w as nat;
            r * r <= Prime(i) * TWO128 < (r + 1) * (r + 1)
  {
    if i == 0 { assert IV()[i].w as nat == 0x6a09e667f3bcc908; }
    else if i == 1 { assert IV()[i].w as nat == 0xbb67ae8584caa73b; }
    else if i == 2 { assert IV()[i].w as nat == 0x3c6ef372fe94f82b; }
    else if i == 3 { assert IV()[i].w as nat == 0xa54ff53a5f1d36f1; }
    else if i == 4 { assert IV()[i].w as nat == 0x510e527fade682d1; }
    else if i == 5 { assert IV()[i].w as nat == 0x9b05688c2b3e6c1f; }
    else if i == 6 { assert IV()[i].w as nat == 0x1f83d9abfb41bd6b; }
    else { assert IV()[i].w as nat == 0x5be0cd19137e2179; }
  }

  /** Four entries of row r as one number in base 16. */
  function Digits(r: nat, k: nat): nat {
    0x1000 * Sigma(r, k) + 0x100 * Sigma(r, k + 1) + 0x10 * Sigma(r, k + 2) + Sigma(r, k + 3)
  }

  predicate RowIs(r: nat, a: nat, b: nat, c: nat, d: nat) {
    Digits(r, 0) == a && Digits(r, 4) == b && Digits(r, 8) == c && Digits(r, 12) == d
  }

  // The message schedule of section 2.7, one hexadecimal digit for each entry.

  lemma Schedule0()
    ensures RowIs(0, 0x0123, 0x4567, 0x89AB, 0xCDEF)
    ensures RowIs(1, 0xEA48, 0x9FD6, 0x1C02, 0xB753)
    ensures RowIs(2, 0xB8C0, 0x52FD, 0xAE36, 0x7194)
  {}

  lemma Schedule3()
    ensures RowIs(3, 0x7931, 0xDCBE, 0x265A, 0x40F8)
    ensures RowIs(4, 0x9057, 0x24AF, 0xE1BC, 0x683D)
    ensures RowIs(5, 0x2C6A, 0x0B83, 0x4D75, 0xFE19)
  {}

  lemma Schedule6()
    ensures RowIs(6, 0xC51F, 0xED4A, 0x0763, 0x928B)
    ensures RowIs(7, 0xDB7E, 0xC139, 0x50F4, 0x862A)
    ensures RowIs(8, 0x6FE9, 0xB308, 0xC2D7, 0x14A5)
  {}

  lemma Schedule9()
    ensures RowIs(9, 0xA284, 0x7615, 0xFB9E, 0x3CD0)
    ensures RowIs(10, 0x0123, 0x4567, 0x89AB, 0xCDEF)
    ensures RowIs(11, 0xEA48, 0x9FD6, 0x1C02, 0xB753)
  {}

  /** The sixteen lanes of section 3.2: counter into 12 and 13, final flag into 14, and IV in the rest. */
  lemma LoadedLanes(h: seq<Lane>, t: nat, i: nat)
    requires |h| == 8 && i < 16
    ensures var v, last := Loaded(h, t, false)[i], Loaded(h, t, true)[i];
            && (i < 8 ==> v == h[i])
            && (i >= 8 ==> v == if i == 12 then Xor(IV()[4], LaneOf(t))
                                else if i == 13 then Xor(IV()[5], LaneOf(t / TWO64))
                                else IV()[i - 8])
            && last == if i == 14 then Flipped(v) else v
  {
    hide Xor, LaneOf, Flipped, IV;
  }

  // ---- a round on columns -------------------------------------------------------------------------------------

  /** The sixteen lanes as four columns. */
  datatype Grid = Grid(q0: Quad, q1: Quad, q2: Quad, q3: Quad)

  function Columns(v: seq<Lane>): Grid
    requires |v| == 16
  {
    Grid(Quad(v[0], v[4], v[8], v[12]), Quad(v[1], v[5], v[9], v[13]), Quad(v[2], v[6], v[10], v[14]),
         Quad(v[3], v[7], v[11], v[15]))
  }

  /** The message words of round r, in the order they are used. */
  function RoundWords(m: seq<Lane>, r: nat): (w: seq<Lane>)
    requires |m| == 16
    ensures |w| == 16
  { seq(16, i requires 0 <= i < 16 => m[Sigma(r, i)]) }

  function MixColumns(s: Grid, w: seq<Lane>): Grid
    requires |w| == 16
  { Grid(G(s.q0, w[0], w[1]), G(s.q1, w[2], w[3]), G(s.q2, w[4], w[5]), G(s.q3, w[6], w[7])) }

  /** The diagonals as columns, and back. */
  function Slanted(s: Grid): Grid {
    Grid(Quad(s.q0.a, s.q1.b, s.q2.c, s.q3.d), Quad(s.q1.a, s.q2.b, s.q3.c, s.q0.d),
         Quad(s.q2.a, s.q3.b, s.q0.c, s.q1.d), Quad(s.q3.a, s.q0.b, s.q1.c, s.q2.d))
  }

  function Straight(s: Grid): Grid {
    Grid(Quad(s.q0.a, s.q3.b, s.q2.c, s.q1.d), Quad(s.q1.a, s.q0.b, s.q3.c, s.q2.d),
         Quad(s.q2.a, s.q1.b, s.q0.c, s.q3.d), Quad(s.q3.a, s.q2.b, s.q1.c, s.q0.d))
  }

  function MixDiagonals(s: Grid, w: seq<Lane>): Grid
    requires |w| == 16
  {
    var t := Slanted(s);
    Straight(Grid(G(t.q0, w[8], w[9]), G(t.q1, w[10], w[11]), G(t.q2, w[12], w[13]), G(t.q3, w[14], w[15])))
  }

  lemma StraightSlanted(s: Grid)
    ensures Straight(Slanted(s)) == s && Slanted(Straight(s)) == s
  {}

  lemma ColumnStep(v: seq<Lane>, j: nat, x: Lane, y: Lane)
    requires |v| == 16 && j < 4
    ensures var s, t := Columns(v), Columns(StepAt(v, j, x, y));
            && t.q0 == (if j == 0 then G(s.q0, x, y) else s.q0) && t.q1 == (if j == 1 then G(s.q1, x, y) else s.q1)
            && t.q2 == (if j == 2 then G(s.q2, x, y) else s.q2) && t.q3 == (if j == 3 then G(s.q3, x, y) else s.q3)
  {
    hide G;
  }

  lemma DiagonalStep(v: seq<Lane>, j: nat, x: Lane, y: Lane)
    requires |v| == 16 && j < 4
    ensures var s, t := Slanted(Columns(v)), Slanted(Columns(StepAt(v, 4 + j, x, y)));
            && t.q0 == (if j == 0 then G(s.q0, x, y) else s.q0) && t.q1 == (if j == 1 then G(s.q1, x, y) else s.q1)
            && t.q2 == (if j == 2 then G(s.q2, x, y) else s.q2) && t.q3 == (if j == 3 then G(s.q3, x, y) else s.q3)
  {
    hide G;
  }

  lemma ColumnNext(v: seq<Lane>, m: seq<Lane>, r: nat, j: nat, n: nat)
    requires |v| == 16 && |m| == 16 && j < 4 && n == 8 * r + j
    ensures var w, s, t := RoundWords(m, r), Columns(Steps(v, m, n)), Columns(Steps(v, m, n + 1));
            var mixed := (q: Quad) => G(q, w[2 * j], w[2 * j + 1]);
            && t.q0 == (if j == 0 then mixed(s.q0) else s.q0) && t.q1 == (if j == 1 then mixed(s.q1) else s.q1)
            && t.q2 == (if j == 2 then mixed(s.q2) else s.q2) && t.q3 == (if j == 3 then mixed(s.q3) else s.q3)
  {
    hide Steps, StepAt, Columns, Sigma, G;
    StepsNext(v, m, r, j);
    ColumnStep(Steps(v, m, n), j, m[Sigma(r, 2 * j)], m[Sigma(r, 2 * j + 1)]);
  }

  lemma DiagonalNext(v: seq<Lane>, m: seq<Lane>, r: nat, j: nat, n: nat)
    requires |v| == 16 && |m| == 16 && j < 4 && n == 8 * r + 4 + j
    ensures var w := RoundWords(m, r);
            var s, t := Slanted(Columns(Steps(v, m, n))), Slanted(Columns(Steps(v, m, n + 1)));
            var mixed := (q: Quad) => G(q, w[8 + 2 * j], w[9 + 2 * j]);
            && t.q0 == (if j == 0 then mixed(s.q0) else s.q0) && t.q1 == (if j == 1 then mixed(s.q1) else s.q1)
            && t.q2 == (if j == 2 then mixed(s.q2) else s.q2) && t.q3 == (if j == 3 then mixed(s.q3) else s.q3)
  {
    hide Steps, StepAt, Columns, Slanted, Sigma, G;
    StepsNext(v, m, r, 4 + j);
    DiagonalStep(Steps(v, m, n), j, m[Sigma(r, 8 + 2 * j)], m[Sigma(r, 9 + 2 * j)]);
  }

  /** A round mixes the columns and then the diagonals. */
  lemma RoundMixes(v: seq<Lane>, m: seq<Lane>, r: nat, n: nat)
    requires |v| == 16 && |m| == 16 && n == 8 * r
    ensures var w := RoundWords(m, r);
            Columns(Steps(v, m, n + 8)) == MixDiagonals(MixColumns(Columns(Steps(v, m, n)), w), w)
  {
    hide Steps, Columns, Slanted, Straight, RoundWords, G;
    ColumnNext(v, m, r, 0, n);
    ColumnNext(v, m, r, 1, n + 1);
    ColumnNext(v, m, r, 2, n + 2);
    ColumnNext(v, m, r, 3, n + 3);
    DiagonalNext(v, m, r, 0, n + 4);
    DiagonalNext(v, m, r, 1, n + 5);
    DiagonalNext(v, m, r, 2, n + 6);
    DiagonalNext(v, m, r, 3, n + 7);
    StraightSlanted(Columns(Steps(v, m, n + 8)));
  }

  // ---- the trace ----------------------------------------------------------------------------------------------

  /** All words are zero but the one in place k, which holds "abc". */
  predicate OnlyAt(w: seq<Lane>, k: nat) {
    |w| == 16 && forall i :: 0 <= i < 16 ==> w[i] == if i == k then Lane(0x636261) else Lane(0)
  }

  lemma WordPlace(m: seq<Lane>, r: nat)
    requires OnlyAt(m, 0) && r < 12
    ensures OnlyAt(RoundWords(m, r), PlaceOf(r, 0))
  {
    EachWordOnce(r, 0);
    forall i | 0 <= i < 16 ensures Sigma(r, i) == 0 <==> i == PlaceOf(r, 0) { EachWordOnce(r, i); }
    hide Sigma, PlaceOf;
  }

  // The state before round r, and in the middle of it.

  function State0(): Grid {
    Grid(Quad(Lane(0x6a09e667f2bdc948), Lane(0x510e527fade682d1), Lane(0x6a09e667f3bcc908), Lane(0x510e527fade682d2)),
         Quad(Lane(0xbb67ae8584caa73b), Lane(0x9b05688c2b3e6c1f), Lane(0xbb67ae8584caa73b), Lane(0x9b05688c2b3e6c1f)),
         Quad(Lane(0x3c6ef372fe94f82b), Lane(0x1f83d9abfb41bd6b), Lane(0x3c6ef372fe94f82b), Lane(0xe07c265404be4294)),
         Quad(Lane(0xa54ff53a5f1d36f1), Lane(0x5be0cd19137e2179), Lane(0xa54ff53a5f1d36f1), Lane(0x5be0cd19137e2179)))
  }

  function Half0(): Grid {
    Grid(Quad(Lane(0xf0c9aa0f86491dea), Lane(0xb7defc3d0277e11f), Lane(0xee5e0f39647a9fff), Lane(0x7772fc2886a76c5f)),
         Quad(Lane(0x63b7dedf4a4e5ad3), Lane(0xed49c30cd311d50e), Lane(0x7bee264bf3cdadfe), Lane(0x254ef880a19a8726)),
         Quad(Lane(0xbe50eb454e0a93d7), Lane(0xa056671704b00d71), Lane(0xb2752dadd66bd8f9), Lane(0x789d43381c47f584)),
         Quad(Lane(0x949804b0483ead14), Lane(0x75e6432fc4661b06), Lane(0xa99463cb37905929), Lane(0xa25ef57d7da312ee)))
  }

  function State1(): Grid {
    Grid(Quad(Lane(0x86b7c1568029bb79), Lane(0x44ee6039bd86a9f7), Lane(0xbec3ae837eac4887), Lane(0xe02d0975b8d37a83)),
         Quad(Lane(0xc12cbcc809ff59f3), Lane(0xa447c850aa694a7e), Lane(0x6267fc79df9d6ad1), Lane(0x1c7b754f08b7d193)),
         Quad(Lane(0xc6a5214cc0eaca8e), Lane(0xde080f1bb1c0f84b), Lane(0xfa87b01273fa6dbe), Lane(0x8f885a76b6e578fe)),
         Quad(Lane(0x0c87cd524c14cc5d), Lane(0x595cb8a9a1aca66c), Lane(0x521a715c63e08d8a), Lane(0x2318a24e2140fc64)))
  }

  function Half1(): Grid {
    Grid(Quad(Lane(0x7d7ebc91065eb487), Lane(0xa2a2bb290a6fa0ac), Lane(0xe089c6944d999f41), Lane(0x9c62f81da3622dd5)),
         Quad(Lane(0x2985dbd3b522b163), Lane(0x48daa2180cca574f), Lane(0x607c07b706df2755), Lane(0x4134955aae31cc2d)),
         Quad(Lane(0x83dcc7c95110e507), Lane(0x25804d5986d6e07f), Lane(0x4defb1cc1d0e5211), Lane(0x8f1947927dee7a35)),
         Quad(Lane(0xd5f7d943ae7a12d4), Lane(0x47dc958f84e67b9c), Lane(0x53fd198002cb9dc5), Lane(0x3561197657eee886)))
  }

  function State2(): Grid {
    Grid(Quad(Lane(0x53281e83806010f2), Lane(0xbaabdbb2f386d9ae), Lane(0x224e6a3369224f96), Lane(0x92a3aaaa6d952b7f)),
         Quad(Lane(0x3594b403f81b4393), Lane(0xca5425aec65a10a8), Lane(0x500e125e58a92923), Lane(0xc5fdf71090fae853)),
         Quad(Lane(0x8cd63c7462de0dff), Lane(0xc6a22e2ff0f7aa48), Lane(0xe9e4ad0d0e1a0d48), Lane(0x2a8a40f15a462dd0)),
         Quad(Lane(0x85f693f3da53f974), Lane(0xc6a56a51cb89c595), Lane(0x85df9dc143c59a74), Lane(0x572d17effdd37358)))
  }

  function Half2(): Grid {
    Grid(Quad(Lane(0x224d9730ddde8c9b), Lane(0x1161e9566cec8636), Lane(0x1cc968515f81e2e0), Lane(0xdc073c3e56ef42ae)),
         Quad(Lane(0xe430476788c41ef0), Lane(0x956fe864884ac584), Lane(0xaef099868dce0a96), Lane(0x3052cabffb0fb2d1)),
         Quad(Lane(0x4f163fda2e4243bf), Lane(0x4dfeb83fd06a086b), Lane(0x5d62892a32598f4d), Lane(0x69ea4685aa4d57b0)),
         Quad(Lane(0x41dd8960f0de029d), Lane(0x78c811fddf5c5824), Lane(0xc92583e5a4ae6f86), Lane(0xeb3719d34531eb68)))
  }

  function State3(): Grid {
    Grid(Quad(Lane(0x60ed96aa7ad41725), Lane(0xda0a61bcde4267ea), Lane(0xa1677e19f37fd5da), Lane(0xc804ebab11c99fa9)),
         Quad(Lane(0xe46a743c71800b9d), Lane(0xb1dd230754d7bdee), Lane(0x22bdce6976b08c51), Lane(0x8e0cec959c715793)),
         Quad(Lane(0x1a04b543a01f156b), Lane(0x25a1422779e06d14), Lane(0xf1de8696bec11bf1), Lane(0x7c45557fae0d4d89)),
         Quad(Lane(0xa2f8716e775c4877), Lane(0xe6823ae4c3ff58a5), Lane(0xa0ebd586a4a1d2c8), Lane(0x716343f52fdd265e)))
  }

  function Half3(): Grid {
    Grid(Quad(Lane(0x6b864497a655fb47), Lane(0xc4b99c558f3684e9), Lane(0xd2d2821a8aa43e4c), Lane(0xe88b2359a43154a6)),
         Quad(Lane(0xc1fd6110ffa75065), Lane(0x065b83216e96ed93), Lane(0xa898085d8e04f013), Lane(0x2bb39bdbff08e7ec)),
         Quad(Lane(0x817908f78a142cfa), Lane(0xf2d93929736e5b04), Lane(0x38bf8d18c9a387f9), Lane(0x8eee368bc701c9f4)),
         Quad(Lane(0xce1577a72bc1ce7b), Lane(0x2795f81cfb8f7633), Lane(0xd750375d8da19646), Lane(0x21ddda93f0e5d3d8)))
  }

  function State4(): Grid {
    Grid(Quad(Lane(0xbb2a77d3a8382351), Lane(0x8a03c4cb7e97590a), Lane(0xa9c9a8f17b1fc614), Lane(0x086092cfb858437e)),
         Quad(Lane(0x45eb47971f23b103), Lane(0x24192e49ebf54ea0), Lane(0x55908187977514a0), Lane(0x5c4be2156dbeecf9)),
         Quad(Lane(0x98be297f6e45c684), Lane(0x4f82c9401cb32d7a), Lane(0x5b44273e66b19d27), Lane(0x2efede99ed4eff16)),
         Quad(Lane(0xa36077dee3370b89), Lane(0x8ccd013726420dc4), Lane(0xb6d5c9fca2579327), Lane(0x3e7b5f234cd1f804)))
  }

  function Half4(): Grid {
    Grid(Quad(Lane(0x3e5bab618a5fbc72), Lane(0x475dcc427f3fcd87), Lane(0x5a8388e35cb33b75), Lane(0x1222a0cc9444c711)),
         Quad(Lane(0x9be6aa793ad3a7c9), Lane(0xbb2d4d7552ba222d), Lane(0xec74922286e7b930), Lane(0x303dfd40b9230c9c)),
         Quad(Lane(0xc5252a4d03f65b2f), Lane(0xcdcfc26e59d1d349), Lane(0x3a03d6ba54158e95), Lane(0x7709a29326a5c548)),
         Quad(Lane(0x1fe21186bd238be3), Lane(0x8bc33bc025ae3c8e), Lane(0xaa550590a17d6cd1), Lane(0xadd65a4af0cfb375)))
  }

  function State5(): Grid {
    Grid(Quad(Lane(0xc79c15b3d423b099), Lane(0x0f6d9eeed157da2a), Lane(0xb2240b59e6d567d3), Lane(0xb97d2d439e4df63d)),
         Quad(Lane(0x2da2224e8da97556), Lane(0x6fe66467af88c0a9), Lane(0x2643c2370e49ebfd), Lane(0xc718e755294c9111)),
         Quad(Lane(0x77d2b26df1c45c55), Lane(0x4eb0b76284c7aafb), Lane(0x79e02eef20cdb1ae), Lane(0x1f0893f2772bb373)),
         Quad(Lane(0x8934eb09a3456052), Lane(0x299c8e725d954697), Lane(0x64b3eed7bb602f39), Lane(0x1205ea4a7859807d)))
  }

  function Half5(): Grid {
    Grid(Quad(Lane(0xf4e55384dc924147), Lane(0xb7b58d9367a4043d), Lane(0xc601582b84c4b49a), Lane(0xd8a6cfd32f7ab2e6)),
         Quad(Lane(0xf015d00b613578c6), Lane(0x02ca058bf3799684), Lane(0x53e84b90ddbf8985), Lane(0x1925e46b74e53ba5)),
         Quad(Lane(0x648495058cae3d2f), Lane(0xb9668b8ebf3fa717), Lane(0x42b26ef24a2100f5), Lane(0xc70d65404fc75525)),
         Quad(Lane(0x54567270ac75c4ea), Lane(0x292f756a3507a223), Lane(0x35134241b118cf10), Lane(0x57dc2cd554e40ca1)))
  }

  function State6(): Grid {
    Grid(Quad(Lane(0xe58f97d6385baee4), Lane(0x7127cd48c76a7708), Lane(0x41cca9073c8c4d0d), Lane(0x8733794f07ac1500)),
         Quad(Lane(0x7640aa9764da137a), Lane(0x9e472af0be3db3f6), Lane(0x5c7912bc10df3b4b), Lane(0xc67a6be42335aa6f)),
         Quad(Lane(0xdeb4c7c23efe287e), Lane(0x0f244c62ddf71788), Lane(0xa2c3abbd37510ee2), Lane(0xacb22b28681e4c82)),
         Quad(Lane(0x70f6f41c8783c9f6), Lane(0x219828aa83880842), Lane(0xcb5668cc2a9f7859), Lane(0xdb2161604cbc9828)))
  }

  function Half6(): Grid {
    Grid(Quad(Lane(0xd0d5bb6a10dae2b5), Lane(0x860aa9f111072cea), Lane(0x391b02b399972abc), Lane(0xfee428bf8b86c15e)),
         Quad(Lane(0xf5d2174aff6cf2cd), Lane(0x90ee681d04ce182a), Lane(0xa93d75cc5e322748), Lane(0x4ca1f5f07a552d91)),
         Quad(Lane(0x39337b3da7e963ab), Lane(0x7e1ec202f5042fa8), Lane(0x74550619f0763471), Lane(0x5ca64dd877b9e682)),
         Quad(Lane(0x588d5ef9a0a6492f), Lane(0x04d72048395b53ff), Lane(0x4795d2168937df08), Lane(0x34881f3a14e9e908)))
  }

  function State7(): Grid {
    Grid(Quad(Lane(0x6e2d286eeadedc81), Lane(0x819415b56220c459), Lane(0x04d769b3fcb048db), Lane(0x92aac307cf2c0afc)),
         Quad(Lane(0xbcf02c0787e86358), Lane(0xb63c479a6a769f02), Lane(0xb78a9a33e9bff4dd), Lane(0x30aaccc4f06dafaa)),
         Quad(Lane(0x57d56a56dd015edf), Lane(0x258e55e0ec1f362a), Lane(0x5777272ae1e930c0), Lane(0x483893cc094f8863)),
         Quad(Lane(0x55d899d40a5d0d0a), Lane(0x3a3b4ec60e19dfdc), Lane(0x5a387849e578dbf6), Lane(0xe03c6cc89c26bf92)))
  }

  function Half7(): Grid {
    Grid(Quad(Lane(0x2c42e52d8c060ff2), Lane(0x8ffac8c5ec5cb0e6), Lane(0x7b7cc36bc928376b), Lane(0xf2d1af914f0bf16d)),
         Quad(Lane(0xa357b3b1736ec0a1), Lane(0x1355530d9510b6da), Lane(0x3981e9894b87e52a), Lane(0x7fc4a1651e4130e8)),
         Quad(Lane(0xd916516a31320b04), Lane(0x56af9e7816abf9be), Lane(0x70e55e0e63448924), Lane(0x58ff19794c000469)),
         Quad(Lane(0x41d37d7ecbfc6541), Lane(0x1c460b4a606cc880), Lane(0xbf9c914183b31c1b), Lane(0xe113c5832e0abbd3)))
  }

  function State8(): Grid {
    Grid(Quad(Lane(0xffc83ece76024d01), Lane(0x81937da314a50838), Lane(0xa3c2d35e4f685c10), Lane(0x3841def6f4c9848a)),
         Quad(Lane(0x1be7bffb8c5cc5f9), Lane(0xe1179523a2541963), Lane(0xa53d3f73aa619624), Lane(0x98662c85fba726d4)),
         Quad(Lane(0xa35a18cbac4c65b7), Lane(0x3a1fad7106232b8f), Lane(0x30bbcc0285a22f65), Lane(0x7762439bd5a851bd)),
         Quad(Lane(0xb7c2c7e6d88c285f), Lane(0x1c7ede92ab8b9c46), Lane(0xbcefbb6a81539e5d), Lane(0xb0b9f0d443d1a889)))
  }

  function Half8(): Grid {
    Grid(Quad(Lane(0xa9126c152d800655), Lane(0x4165a65ac9e3c45b), Lane(0x87047c8ec6295331), Lane(0x64d2d77cbda6949a)),
         Quad(Lane(0xac1632ba715ebf08), Lane(0xdfe2d8cd3101f453), Lane(0x40e7b1fdda2d2585), Lane(0xc6927901cb3215c7)),
         Quad(Lane(0x7c1849df4e91206f), Lane(0x41aa56fe49862d7f), Lane(0x3e4ba8ddb8e29996), Lane(0xa5c81bdf8924e48a)),
         Quad(Lane(0x94aaf312690f9253), Lane(0x13e3a2c50cfad099), Lane(0x49989dfa62e90301), Lane(0xc4fe53007c9d0df7)))
  }

  function State9(): Grid {
    Grid(Quad(Lane(0x753a70a1e8faeadd), Lane(0x58540ee1b1aebc47), Lane(0x316cc9ebeefad8fc), Lane(0x88ed6c4f3bd7a537)),
         Quad(Lane(0x6b0d43ca2c25d629), Lane(0x63c5b9b80d294cb9), Lane(0x4a466bcd021526a4), Lane(0x19ae688ddf67f026)),
         Quad(Lane(0xf8343ba8b94f8c0b), Lane(0x490870ecad27debd), Lane(0x5da7f7638cec5669), Lane(0x4d8707aab40f7e6d)),
         Quad(Lane(0xbc7d062b0db5cf35), Lane(0xb2a90ddf667287fe), Lane(0xd9c8826727d306fc), Lane(0xfd3f572687fea4f1)))
  }

  function Half9(): Grid {
    Grid(Quad(Lane(0xc0df0f0e596ec5a9), Lane(0xb4014455ff7c2ca0), Lane(0xa9502da0417b08d5), Lane(0xd66561a10d1d1c0d)),
         Quad(Lane(0x87ca07d5e3d64cb6), Lane(0x65bf544e084bb313), Lane(0x0a28a074aea2f05d), Lane(0xd9b961e2d51134aa)),
         Quad(Lane(0xd11bc20e8ef44efc), Lane(0x3478342ab05ecf87), Lane(0x15e30f6c705383f7), Lane(0xe5c30363d6ab824f)),
         Quad(Lane(0x0df3ea89aaa44e12), Lane(0x88274463ca98e874), Lane(0xdade744ed33782e5), Lane(0x0d3efe25194b38bd)))
  }

  function State10(): Grid {
    Grid(Quad(Lane(0xe630c747ccd59c4f), Lane(0x2d04185eac2a8cba), Lane(0x6dd4fbc1de60165d), Lane(0x2c6b25593d717852)),
         Quad(Lane(0xbc713d41127571ca), Lane(0x5f311b88904056ec), Lane(0xb3b0b51de3c86270), Lane(0x37e8ca471beaa5f8)),
         Quad(Lane(0x46db183025025078), Lane(0x40bd313009201aab), Lane(0x900aee2f233b08e5), Lane(0x2cfc1bac10ef4457)),
         Quad(Lane(0x6727e81260610140), Lane(0x0099d4f82a2a1eab), Lane(0xa07199d87ad058d8), Lane(0x01369ec18746e775)))
  }

  function Half10(): Grid {
    Grid(Quad(Lane(0xfdd2c6435d5a301b), Lane(0x2ca29c4d619bafa1), Lane(0x7ccca8ba533b7361), Lane(0xcae4b9c0357b6205)),
         Quad(Lane(0x6e446afbc3efad36), Lane(0xfcd5d76a6de20047), Lane(0xacc8f98717c8e4a3), Lane(0x3fb8d71b07b5efa5)),
         Quad(Lane(0x46d963ee934efeea), Lane(0x8b7f1e6cfc2a0039), Lane(0x7afe95b81b3993db), Lane(0xac2678144c9a382a)),
         Quad(Lane(0x5523c5b930d1aeb6), Lane(0xadbdc7977150b805), Lane(0x3bbceb651eeed2c9), Lane(0x8d7d58ee3d275626)))
  }

  function State11(): Grid {
    Grid(Quad(Lane(0xe801f73b9768c760), Lane(0xf4f1be86690b3c34), Lane(0x35ba354a9c7df448), Lane(0x61b5c0a41d491399)),
         Quad(Lane(0x35c6d22320be511d), Lane(0x3cc88735d1475e4b), Lane(0x4929cbe45679d73e), Lane(0xb5c333457e12844a)),
         Quad(Lane(0x306f27584f65495e), Lane(0x5dac67921ff76949), Lane(0x733d1a17248f39db), Lane(0xbd696be010d0d889)),
         Quad(Lane(0xb51776adf569a77b), Lane(0x1cdb9d31ad70cc4e), Lane(0x92d57b736f5f170a), Lane(0x02231e1a917fe0bd)))
  }

  function Half11(): Grid {
    Grid(Quad(Lane(0xac495068076fe1c4), Lane(0x5198d8d539a3fbce), Lane(0xe799f6cc9a2a23d7), Lane(0x94a2b1744065ba29)),
         Quad(Lane(0xf3ae6a427a75e234), Lane(0xb8eacc53aead98b1), Lane(0x5d6a76c05f26fe94), Lane(0x88297fb94160bd39)),
         Quad(Lane(0x83933b99d54089ee), Lane(0x55b2599798b3a4a1), Lane(0x5fae8064a9ba0517), Lane(0x6ce4fc1f51b7e632)),
         Quad(Lane(0x31db95ba436e4db7), Lane(0xb20b2179d2dcd8c6), Lane(0x06ed116649fdb58d), Lane(0x4072027e06ce90be)))
  }

  function State12(): Grid {
    Grid(Quad(Lane(0x12ef8a641ec4f6d6), Lane(0xf42c16519ad5afa7), Lane(0x75ab709bd3dcbf24), Lane(0x885bef040ef6aa0b)),
         Quad(Lane(0xbced5de977c9faf5), Lane(0xaa5ac1888e10467e), Lane(0xee7ce1f345947aa4), Lane(0xa4939a417bfb78a3)),
         Quad(Lane(0x733ca476c5148639), Lane(0x217d930aa51787f3), Lane(0xf8960d6c2faf5f5e), Lane(0x646cbb7af6dce980)),
         Quad(Lane(0x97df596b0610f6fc), Lane(0x906a6ff19e573942), Lane(0xe332538a36b6d246), Lane(0xe813a23c60af3b82)))
  }

  lemma Down0(w: seq<Lane>)
    requires OnlyAt(w, 0)
    ensures MixColumns(State0(), w) == Half0()
  {}

  lemma Across0(w: seq<Lane>)
    requires OnlyAt(w, 0)
    ensures MixDiagonals(Half0(), w) == State1()
  {}

  lemma Down1(w: seq<Lane>)
    requires OnlyAt(w, 10)
    ensures MixColumns(State1(), w) == Half1()
  {}

  lemma Across1(w: seq<Lane>)
    requires OnlyAt(w, 10)
    ensures MixDiagonals(Half1(), w) == State2()
  {}

  lemma Down2(w: seq<Lane>)
    requires OnlyAt(w, 3)
    ensures MixColumns(State2(), w) == Half2()
  {}

  lemma Across2(w: seq<Lane>)
    requires OnlyAt(w, 3)
    ensures MixDiagonals(Half2(), w) == State3()
  {}

  lemma Down3(w: seq<Lane>)
    requires OnlyAt(w, 13)
    ensures MixColumns(State3(), w) == Half3()
  {}

  lemma Across3(w: seq<Lane>)
    requires OnlyAt(w, 13)
    ensures MixDiagonals(Half3(), w) == State4()
  {}

  lemma Down4(w: seq<Lane>)
    requires OnlyAt(w, 1)
    ensures MixColumns(State4(), w) == Half4()
  {}

  lemma Across4(w: seq<Lane>)
    requires OnlyAt(w, 1)
    ensures MixDiagonals(Half4(), w) == State5()
  {}

  lemma Down5(w: seq<Lane>)
    requires OnlyAt(w, 4)
    ensures MixColumns(State5(), w) == Half5()
  {}

  lemma Across5(w: seq<Lane>)
    requires OnlyAt(w, 4)
    ensures MixDiagonals(Half5(), w) == State6()
  {}

  lemma Down6(w: seq<Lane>)
    requires OnlyAt(w, 8)
    ensures MixColumns(State6(), w) == Half6()
  {}

  lemma Across6(w: seq<Lane>)
    requires OnlyAt(w, 8)
    ensures MixDiagonals(Half6(), w) == State7()
  {}

  lemma Down7(w: seq<Lane>)
    requires OnlyAt(w, 9)
    ensures MixColumns(State7(), w) == Half7()
  {}

  lemma Across7(w: seq<Lane>)
    requires OnlyAt(w, 9)
    ensures MixDiagonals(Half7(), w) == State8()
  {}

  lemma Down8(w: seq<Lane>)
    requires OnlyAt(w, 6)
    ensures MixColumns(State8(), w) == Half8()
  {}

  lemma Across8(w: seq<Lane>)
    requires OnlyAt(w, 6)
    ensures MixDiagonals(Half8(), w) == State9()
  {}

  lemma Down9(w: seq<Lane>)
    requires OnlyAt(w, 15)
    ensures MixColumns(State9(), w) == Half9()
  {}

  lemma Across9(w: seq<Lane>)
    requires OnlyAt(w, 15)
    ensures MixDiagonals(Half9(), w) == State10()
  {}

  lemma Down10(w: seq<Lane>)
    requires OnlyAt(w, 0)
    ensures MixColumns(State10(), w) == Half10()
  {}

  lemma Across10(w: seq<Lane>)
    requires OnlyAt(w, 0)
    ensures MixDiagonals(Half10(), w) == State11()
  {}

  lemma Down11(w: seq<Lane>)
    requires OnlyAt(w, 10)
    ensures MixColumns(State11(), w) == Half11()
  {}

  lemma Across11(w: seq<Lane>)
    requires OnlyAt(w, 10)
    ensures MixDiagonals(Half11(), w) == State12()
  {}

  lemma Rounds0(v: seq<Lane>, m: seq<Lane>)
    requires |v| == 16 && |m| == 16 && OnlyAt(m, 0) && Columns(Steps(v, m, 0)) == State0()
    ensures Columns(Steps(v, m, 24)) == State3()
  {
    hide Steps, Columns, MixColumns, MixDiagonals, RoundWords, Sigma, OnlyAt,
         State0, State1, State2, State3, Half0, Half1, Half2;
    RoundFrom(v, m, 0);
    assert PlaceOf(0, 0) == 0;
    Down0(RoundWords(m, 0));
    Across0(RoundWords(m, 0));
    RoundFrom(v, m, 1);
    assert PlaceOf(1, 0) == 10;
    Down1(RoundWords(m, 1));
    Across1(RoundWords(m, 1));
    RoundFrom(v, m, 2);
    assert PlaceOf(2, 0) == 3;
    Down2(RoundWords(m, 2));
    Across2(RoundWords(m, 2));
  }

  lemma Rounds3(v: seq<Lane>, m: seq<Lane>)
    requires |v| == 16 && |m| == 16 && OnlyAt(m, 0) && Columns(Steps(v, m, 24)) == State3()
    ensures Columns(Steps(v, m, 48)) == State6()
  {
    hide Steps, Columns, MixColumns, MixDiagonals, RoundWords, Sigma, OnlyAt,
         State3, State4, State5, State6, Half3, Half4, Half5;
    RoundFrom(v, m, 3);
    assert PlaceOf(3, 0) == 13;
    Down3(RoundWords(m, 3));
    Across3(RoundWords(m, 3));
    RoundFrom(v, m, 4);
    assert PlaceOf(4, 0) == 1;
    Down4(RoundWords(m, 4));
    Across4(RoundWords(m, 4));
    RoundFrom(v, m, 5);
    assert PlaceOf(5, 0) == 4;
    Down5(RoundWords(m, 5));
    Across5(RoundWords(m, 5));
  }

  lemma Rounds6(v: seq<Lane>, m: seq<Lane>)
    requires |v| == 16 && |m| == 16 && OnlyAt(m, 0) && Columns(Steps(v, m, 48)) == State6()
    ensures Columns(Steps(v, m, 72)) == State9()
  {
    hide Steps, Columns, MixColumns, MixDiagonals, RoundWords, Sigma, OnlyAt,
         State6, State7, State8, State9, Half6, Half7, Half8;
    RoundFrom(v, m, 6);
    assert PlaceOf(6, 0) == 8;
    Down6(RoundWords(m, 6));
    Across6(RoundWords(m, 6));
    RoundFrom(v, m, 7);
    assert PlaceOf(7, 0) == 9;
    Down7(RoundWords(m, 7));
    Across7(RoundWords(m, 7));
    RoundFrom(v, m, 8);
    assert PlaceOf(8, 0) == 6;
    Down8(RoundWords(m, 8));
    Across8(RoundWords(m, 8));
  }

  lemma Rounds9(v: seq<Lane>, m: seq<Lane>)
    requires |v| == 16 && |m| == 16 && OnlyAt(m, 0) && Columns(Steps(v, m, 72)) == State9()
    ensures Columns(Steps(v, m, 96)) == State12()
  {
    hide Steps, Columns, MixColumns, MixDiagonals, RoundWords, Sigma, OnlyAt,
         State9, State10, State11, State12, Half9, Half10, Half11;
    RoundFrom(v, m, 9);
    assert PlaceOf(9, 0) == 15;
    Down9(RoundWords(m, 9));
    Across9(RoundWords(m, 9));
    RoundFrom(v, m, 10);
    assert PlaceOf(10, 0) == 0;
    Down10(RoundWords(m, 10));
    Across10(RoundWords(m, 10));
    RoundFrom(v, m, 11);
    assert PlaceOf(11, 0) == 10;
    Down11(RoundWords(m, 11));
    Across11(RoundWords(m, 11));
  }

  lemma RoundFrom(v: seq<Lane>, m: seq<Lane>, r: nat)
    requires |v| == 16 && |m| == 16 && OnlyAt(m, 0) && r < 12
    ensures var w := RoundWords(m, r);
            && OnlyAt(w, PlaceOf(r, 0))
            && Columns(Steps(v, m, 8 * r + 8)) == MixDiagonals(MixColumns(Columns(Steps(v, m, 8 * r)), w), w)
  {
    hide Steps, Columns, MixColumns, MixDiagonals, RoundWords, Sigma, OnlyAt, PlaceOf;
    WordPlace(m, r);
    RoundMixes(v, m, r, 8 * r);
  }

  // ---- from the bytes to the lanes and back -------------------------------------------------------------------

  lemma AbcWord()
    ensures LittleEndian([0x61, 0x62, 0x63, 0, 0, 0, 0, 0]) == Lane(0x636261)
    ensures LittleEndian([0, 0, 0, 0, 0, 0, 0, 0]) == Lane(0)
  {}

  lemma AbcBlock()
    ensures OnlyAt(BlockWords(ZeroPadded([0x61, 0x62, 0x63])), 0)
  {
    hide LittleEndian;
    AbcWord();
    var b := ZeroPadded([0x61, 0x62, 0x63]);
    assert b[0..8] == [0x61, 0x62, 0x63, 0, 0, 0, 0, 0];
    forall i | 1 <= i < 16 ensures b[8 * i..8 * i + 8] == [0, 0, 0, 0, 0, 0, 0, 0] {}
  }

  lemma SmallLanes()
    ensures LaneOf(0) == Lane(0) && LaneOf(3) == Lane(3) && LaneOf(64) == Lane(64) && LaneOf(3 / TWO64) == Lane(0)
  {}

  lemma ParameterXors()
    ensures Xor(Xor(Xor(Lane(0x6a09e667f3bcc908), Lane(0x0101_0000)), Lane(0)), Lane(64)) == Lane(0x6a09e667f2bdc948)
  {}

  lemma FirstIV()
    ensures IV()[0] == Lane(0x6a09e667f3bcc908)
  {}

  lemma ParameterWord()
    ensures Parameters(64, 0) == IV()[0 := Lane(0x6a09e667f2bdc948)]
  {
    hide Xor, LaneOf, IV;
    SmallLanes();
    ParameterXors();
    FirstIV();
    assert 256 * 0 == 0;
  }

  lemma AbcLoaded()
    ensures Columns(Loaded(Parameters(64, 0), 3, true)) == State0()
  {
    ParameterWord();
    SmallLanes();
    assert Xor(Lane(0x510e527fade682d1), Lane(3)) == Lane(0x510e527fade682d2);
    assert Xor(Lane(0x9b05688c2b3e6c1f), Lane(0)) == Lane(0x9b05688c2b3e6c1f);
    assert Flipped(Lane(0x1f83d9abfb41bd6b)) == Lane(0xe07c265404be4294);
    hide Xor, LaneOf, Flipped, Parameters;
  }

  /** All twelve rounds. */
  lemma AbcMixed(v: seq<Lane>, m: seq<Lane>)
    requires |v| == 16 && |m| == 16 && OnlyAt(m, 0) && Columns(v) == State0()
    ensures Columns(Steps(v, m, STEPS)) == State12()
  {
    hide Steps, Columns, OnlyAt, State0, State3, State6, State9, State12;
    StepsZero(v, m);
    Rounds0(v, m);
    Rounds3(v, m);
    Rounds6(v, m);
    Rounds9(v, m);
  }

  /** The words of the digest. */
  function AbcWords(): seq<Lane> {
    [Lane(0x0d4d1c983fa580ba), Lane(0xe9f6129fb697276a), Lane(0xb7c45a68142f214c), Lane(0xd1a2ffdb6fbb124b),
     Lane(0x2d79ab2a39c5877d), Lane(0x95cc3345ded552c2), Lane(0x5a92f1dba88ad318), Lane(0x239900d4ed8623b9)]
  }

  lemma AbcXors0()
    ensures Xor(Lane(0x6a09e667f2bdc948), Xor(Lane(0x12ef8a641ec4f6d6), Lane(0x75ab709bd3dcbf24)))
            == Lane(0x0d4d1c983fa580ba)
    ensures Xor(Lane(0xbb67ae8584caa73b), Xor(Lane(0xbced5de977c9faf5), Lane(0xee7ce1f345947aa4)))
            == Lane(0xe9f6129fb697276a)
    ensures Xor(Lane(0x3c6ef372fe94f82b), Xor(Lane(0x733ca476c5148639), Lane(0xf8960d6c2faf5f5e)))
            == Lane(0xb7c45a68142f214c)
    ensures Xor(Lane(0xa54ff53a5f1d36f1), Xor(Lane(0x97df596b0610f6fc), Lane(0xe332538a36b6d246)))
            == Lane(0xd1a2ffdb6fbb124b)
  {}

  lemma AbcXors4()
    ensures Xor(Lane(0x510e527fade682d1), Xor(Lane(0xf42c16519ad5afa7), Lane(0x885bef040ef6aa0b)))
            == Lane(0x2d79ab2a39c5877d)
    ensures Xor(Lane(0x9b05688c2b3e6c1f), Xor(Lane(0xaa5ac1888e10467e), Lane(0xa4939a417bfb78a3)))
            == Lane(0x95cc3345ded552c2)
    ensures Xor(Lane(0x1f83d9abfb41bd6b), Xor(Lane(0x217d930aa51787f3), Lane(0x646cbb7af6dce980)))
            == Lane(0x5a92f1dba88ad318)
    ensures Xor(Lane(0x5be0cd19137e2179), Xor(Lane(0x906a6ff19e573942), Lane(0xe813a23c60af3b82)))
            == Lane(0x239900d4ed8623b9)
  {}

  lemma AbcFolded(v: seq<Lane>)
    requires |v| == 16 && Columns(v) == State12()
    ensures Folded(Parameters(64, 0), v) == AbcWords()
  {
    ParameterWord();
    hide Xor, Parameters;
    AbcXors0();
    AbcXors4();
  }

  function WordOut(w: Words.Word): (b: Bytes)
    ensures |b| == 8
  {
    [ByteOf(w, 0), ByteOf(w, 1), ByteOf(w, 2), ByteOf(w, 3), ByteOf(w, 4), ByteOf(w, 5), ByteOf(w, 6), ByteOf(w, 7)]
  }

  /** The digest is its words, byte after byte. */
  lemma WordInOutput(h: seq<Lane>, k: nat)
    requires |h| == 8 && k < 8
    ensures Output(h, 64)[8 * k..8 * k + 8] == WordOut(h[k].w)
  {
    hide ByteOf;
    var s, b := Output(h, 64)[8 * k..8 * k + 8], WordOut(h[k].w);
    forall j: nat | j < 8 ensures s[j] == ByteOf(h[k].w, j) {
      assert (8 * k + j) / 8 == k && (8 * k + j) % 8 == j;
    }
    assert s[0] == b[0] && s[1] == b[1] && s[2] == b[2] && s[3] == b[3];
    assert s[4] == b[4] && s[5] == b[5] && s[6] == b[6] && s[7] == b[7];
  }

  lemma AbcBytes0()
    ensures WordOut(0x0d4d1c983fa580ba) == [0xba, 0x80, 0xa5, 0x3f, 0x98, 0x1c, 0x4d, 0x0d]
    ensures WordOut(0xe9f6129fb697276a) == [0x6a, 0x27, 0x97, 0xb6, 0x9f, 0x12, 0xf6, 0xe9]
    ensures WordOut(0xb7c45a68142f214c) == [0x4c, 0x21, 0x2f, 0x14, 0x68, 0x5a, 0xc4, 0xb7]
    ensures WordOut(0xd1a2ffdb6fbb124b) == [0x4b, 0x12, 0xbb, 0x6f, 0xdb, 0xff, 0xa2, 0xd1]
  {}

  lemma AbcBytes4()
    ensures WordOut(0x2d79ab2a39c5877d) == [0x7d, 0x87, 0xc5, 0x39, 0x2a, 0xab, 0x79, 0x2d]
    ensures WordOut(0x95cc3345ded552c2) == [0xc2, 0x52, 0xd5, 0xde, 0x45, 0x33, 0xcc, 0x95]
    ensures WordOut(0x5a92f1dba88ad318) == [0x18, 0xd3, 0x8a, 0xa8, 0xdb, 0xf1, 0x92, 0x5a]
    ensures WordOut(0x239900d4ed8623b9) == [0xb9, 0x23, 0x86, 0xed, 0xd4, 0x00, 0x99, 0x23]
  {}

  lemma AbcOutput(r: Bytes)
    requires r == Output(AbcWords(), 64)
    ensures r[0..8] == [0xba, 0x80, 0xa5, 0x3f, 0x98, 0x1c, 0x4d, 0x0d]
            && r[8..16] == [0x6a, 0x27, 0x97, 0xb6, 0x9f, 0x12, 0xf6, 0xe9]
            && r[16..24] == [0x4c, 0x21, 0x2f, 0x14, 0x68, 0x5a, 0xc4, 0xb7]
            && r[24..32] == [0x4b, 0x12, 0xbb, 0x6f, 0xdb, 0xff, 0xa2, 0xd1]
            && r[32..40] == [0x7d, 0x87, 0xc5, 0x39, 0x2a, 0xab, 0x79, 0x2d]
            && r[40..48] == [0xc2, 0x52, 0xd5, 0xde, 0x45, 0x33, 0xcc, 0x95]
            && r[48..56] == [0x18, 0xd3, 0x8a, 0xa8, 0xdb, 0xf1, 0x92, 0x5a]
            && r[56..64] == [0xb9, 0x23, 0x86, 0xed, 0xd4, 0x00, 0x99, 0x23]
  {
    hide Output, WordOut;
    AbcBytes0();
    AbcBytes4();
    WordInOutput(AbcWords(), 0);
    WordInOutput(AbcWords(), 1);
    WordInOutput(AbcWords(), 2);
    WordInOutput(AbcWords(), 3);
    WordInOutput(AbcWords(), 4);
    WordInOutput(AbcWords(), 5);
    WordInOutput(AbcWords(), 6);
    WordInOutput(AbcWords(), 7);
  }

  /** One block, fed with three bytes, is the whole of it. */
  lemma OneBlock(data: Bytes)
    requires |data| == 3
    ensures Blake2bHash(data, [], 64) == Output(F(Parameters(64, 0), ZeroPadded(data), 3, true), 64)
  {
    hide F, Output, Parameters;
    assert BlockAt(data, 0) == ZeroPadded(data);
    assert Chained(Parameters(64, 0), data, 0) == Parameters(64, 0);
  }

  lemma AbcCompressed()
    ensures F(Parameters(64, 0), ZeroPadded([0x61, 0x62, 0x63]), 3, true) == AbcWords()
  {
    AbcBlock();
    AbcLoaded();
    hide Loaded, Parameters, BlockWords, ZeroPadded, Columns, Steps, Folded, AbcWords, OnlyAt, State0, State12;
    var v, m := Loaded(Parameters(64, 0), 3, true), BlockWords(ZeroPadded([0x61, 0x62, 0x63]));
    AbcMixed(v, m);
    AbcFolded(Steps(v, m, STEPS));
  }

  /** Appendix A of RFC 7693: the 64 bytes of BLAKE2b-512("abc"), eight at a time. */
  lemma AbcDigest()
    ensures var r := Blake2bHash(Ascii("abc"), [], 64);
            && r[0..8] == [0xba, 0x80, 0xa5, 0x3f, 0x98, 0x1c, 0x4d, 0x0d]
            && r[8..16] == [0x6a, 0x27, 0x97, 0xb6, 0x9f, 0x12, 0xf6, 0xe9]
            && r[16..24] == [0x4c, 0x21, 0x2f, 0x14, 0x68, 0x5a, 0xc4, 0xb7]
            && r[24..32] == [0x4b, 0x12, 0xbb, 0x6f, 0xdb, 0xff, 0xa2, 0xd1]
            && r[32..40] == [0x7d, 0x87, 0xc5, 0x39, 0x2a, 0xab, 0x79, 0x2d]
            && r[40..48] == [0xc2, 0x52, 0xd5, 0xde, 0x45, 0x33, 0xcc, 0x95]
            && r[48..56] == [0x18, 0xd3, 0x8a, 0xa8, 0xdb, 0xf1, 0x92, 0x5a]
            && r[56..64] == [0xb9, 0x23, 0x86, 0xed, 0xd4, 0x00, 0x99, 0x23]
  {
    assert Ascii("abc") == [0x61, 0x62, 0x63];
    hide F, Output, Parameters, ZeroPadded, AbcWords, Blake2bHash, Ascii;
    OneBlock([0x61, 0x62, 0x63]);
    AbcCompressed();
    AbcOutput(Blake2bHash([0x61, 0x62, 0x63], [], 64));
  }
}
