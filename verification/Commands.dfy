/**
 The commands of the secure app, and where each command and its reply lie in the shared buffer.
 */
module Commands {
  import opened Words

  datatype Command =
    | Initialize | Uninitialize | DeviceInitialize | DeviceCalibrate
    | AuthSessionBegin | AuthSessionEnd
    | CaptureStart | CaptureReadData | CaptureProcessData | CaptureAbort
    | EnrollBegin | EnrollAddImage | EnrollFinish | EnrollmentPasswordSet
    | MatchImageToTemplates | PayloadBind | PayloadRelease
    | VendorUnknown0 | VendorUnknownA | GetAuthToken | EnterAuthSession | UpdateCalData

  // ----- the shared buffer

  const SB_LENGTH: nat := 0x10_0000
  const BUFFER_LENGTH: nat := 0x1_9000
  const CALIBRATE_DATA_MAX_LENGTH: nat := 0x500c
  const AUTH_TOKEN_LENGTH: nat := 0x70
  const AUTH_SESSION_TOKEN_LENGTH: nat := 0x20
  const FINGER_DATA_MAX_LENGTH: nat := 0x2900
  const PAYLOAD_MAX_LENGTH: nat := 0x24

  /** QSEECOM_ALIGN, with the mask as the header writes it. */
  function Align(x: nat): nat
    requires x + 64 < 0x1_0000_0000
  {
    BitAnd(x + 64, BitNot(63))
  }

  /** Masking with the complement of 2^k - 1 rounds down to a multiple of 2^k. */
  lemma {:induction false} MaskRoundsDown(n: nat, k: nat, x: nat)
    requires k <= n && x < Pow2(n)
    ensures Pow2(k) <= Pow2(n)
    ensures And(x, Pow2(n) - Pow2(k)) == x - x % Pow2(k)
    decreases n
  {
    hide And;
    if k == 0 {
      MaskOfOnes(n, x);
    } else {
      MaskRoundsDown(n - 1, k - 1, x / 2);
      AndDigit(x, Pow2(n) - Pow2(k));
      assert (Pow2(n) - Pow2(k)) / 2 == Pow2(n - 1) - Pow2(k - 1);
      HalfRemainder(x, Pow2(k - 1));
    }
  }

  lemma {:induction false} MaskOfOnes(n: nat, x: nat)
    requires x < Pow2(n)
    ensures And(x, Pow2(n) - 1) == x
  {
    if n > 0 {
      MaskOfOnes(n - 1, x / 2);
      AndDigit(x, Pow2(n) - 1);
    }
  }

  lemma HalfRemainder(x: nat, p: nat)
    requires p > 0
    ensures x % (2 * p) == 2 * (x / 2 % p) + x % 2
  {
    var q, r := x / 2 / p, x / 2 % p;
    assert x / 2 == p * q + r;
    assert q * (2 * p) == 2 * (p * q);
    DivisionUnique(x, 2 * p, q, 2 * r + x % 2);
  }

  /** The rounding is strict: even a multiple of 64 moves up to the next one. */
  lemma AlignIsStrict(x: nat)
    requires x + 64 < 0x1_0000_0000
    ensures Align(x) % 64 == 0 && x < Align(x) <= x + 64
  {
    Pow2Of32();
    Powers();
    assert Pow2(6) == 64;
    MaskRoundsDown(32, 6, x + 64);
    hide Pow2, And;
    assert Align(x) == x + 64 - (x + 64) % 64;
  }

  // ----- sizes of the command and reply structures, for a 32-bit time_t

  const INT: nat := 4
  const HEADER: nat := 12
  const VENDOR_HEADER: nat := 16
  const MATCH_HEADER: nat := 24
  const MATCH_DATA: nat := 563304

  /** Where template frame k starts in the data of a match command, and how far apart frames are. */
  const FRAMES: nat := 102392
  const FRAME_STEP: nat := 15364
  const FRAME_COUNT: nat := 5

  /**
   Where a command and its reply lie: one past the last command byte that is written, the length
   sent, the offset of the reply and the length received.
   */
  datatype Placement = Placement(written: nat, sent: nat, replyAt: nat, received: nat)

  function PlacementOf(c: Command): Placement {
    match c
    case Initialize => Placement(HEADER + 1, Align(BUFFER_LENGTH), Align(BUFFER_LENGTH), Align(INT))
    case DeviceInitialize => Placement(INT, Align(BUFFER_LENGTH), Align(BUFFER_LENGTH), Align(INT))
    case DeviceCalibrate =>
      Placement(HEADER + 4 + CALIBRATE_DATA_MAX_LENGTH, Align(BUFFER_LENGTH), Align(BUFFER_LENGTH), Align(BUFFER_LENGTH))
    case Uninitialize => Placement(INT, Align(INT), Align(BUFFER_LENGTH), Align(INT))
    case AuthSessionBegin | EnrollAddImage => Placement(INT, Align(INT), Align(INT), Align(BUFFER_LENGTH))
    case CaptureReadData => Placement(2 * INT, Align(INT), Align(INT), Align(BUFFER_LENGTH))
    case AuthSessionEnd | CaptureAbort => Placement(INT, Align(INT), Align(INT), Align(INT))
    case CaptureStart => Placement(HEADER + 26, Align(BUFFER_LENGTH), Align(BUFFER_LENGTH), Align(INT))
    case CaptureProcessData => Placement(HEADER + 26, Align(INT), Align(BUFFER_LENGTH), Align(BUFFER_LENGTH))
    case EnrollBegin => Placement(HEADER + 102400 + 1, Align(BUFFER_LENGTH), Align(BUFFER_LENGTH), Align(INT))
    case EnrollFinish =>
      Placement(HEADER + AUTH_SESSION_TOKEN_LENGTH, Align(BUFFER_LENGTH), Align(BUFFER_LENGTH), Align(BUFFER_LENGTH))
    case PayloadBind => Placement(HEADER + 4 + 7, Align(BUFFER_LENGTH), Align(BUFFER_LENGTH), Align(BUFFER_LENGTH))
    case PayloadRelease =>
      Placement(HEADER + PAYLOAD_MAX_LENGTH, Align(2 * BUFFER_LENGTH), Align(2 * BUFFER_LENGTH), Align(BUFFER_LENGTH))
    case EnrollmentPasswordSet =>
      Placement(HEADER + AUTH_SESSION_TOKEN_LENGTH, Align(3 * BUFFER_LENGTH), Align(3 * BUFFER_LENGTH), Align(BUFFER_LENGTH))
    case MatchImageToTemplates =>
      Placement(MATCH_HEADER + FRAMES + (FRAME_COUNT - 1) * FRAME_STEP + 4 + FINGER_DATA_MAX_LENGTH,
                Align(MATCH_HEADER + MATCH_DATA), Align(MATCH_HEADER + MATCH_DATA), Align(2 * BUFFER_LENGTH))
    case VendorUnknown0 | VendorUnknownA | GetAuthToken | UpdateCalData =>
      Placement(2 * INT, Align(BUFFER_LENGTH), Align(BUFFER_LENGTH), Align(BUFFER_LENGTH))
    case EnterAuthSession =>
      Placement(VENDOR_HEADER + AUTH_TOKEN_LENGTH, Align(BUFFER_LENGTH), Align(BUFFER_LENGTH), Align(BUFFER_LENGTH))
  }

  /** No command reaches into its reply, every field is sent, and both fit in the shared buffer. */
  lemma LayoutFits(c: Command)
    ensures var p := PlacementOf(c);
      && p.written <= p.sent <= p.replyAt && p.replyAt + p.received <= SB_LENGTH
      && p.sent % 64 == 0 && p.replyAt % 64 == 0 && p.received % 64 == 0
  {
    hide Align;
    AlignIsStrict(INT);
    AlignIsStrict(BUFFER_LENGTH);
    AlignIsStrict(2 * BUFFER_LENGTH);
    AlignIsStrict(3 * BUFFER_LENGTH);
    AlignIsStrict(MATCH_HEADER + MATCH_DATA);
  }

  /**
   The slot number of EnrollBegin is written behind its structure, whose size is a multiple of 64:
   it is sent, and misses the reply, only because the alignment is strict.
   */
  lemma EnrollBeginNeedsTheGap()
    ensures BUFFER_LENGTH % 64 == 0
    ensures BUFFER_LENGTH < PlacementOf(EnrollBegin).written <= Align(BUFFER_LENGTH) == BUFFER_LENGTH + 64
  {
    hide Align;
    AlignIsStrict(BUFFER_LENGTH);
  }
}
