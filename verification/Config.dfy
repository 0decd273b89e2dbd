/** The compile-time constants of chanfix_config.h, the run-time settings, and C++'s integer conversions. */
module Config {

  const DAYSAMPLES := 14
  const POINTS_UPDATE_TIME := 300
  const DAY := 86400
  const MAX_SCORE := 4032            // DAYSAMPLES * 86400 / POINTS_UPDATE_TIME
  const ROUNDS_PER_DAY := 288        // 86400 / POINTS_UPDATE_TIME
  const MAXOPCOUNT := 256

  const AUTOFIX_INTERVAL := 600
  const AUTOFIX_MAXIMUM := 3600
  const CHANFIX_DELAY := 30
  const CHANFIX_INTERVAL := 300
  const CHANFIX_MAXIMUM := 3600
  const NUM_OPPED := 5               // AUTOFIX_NUM_OPPED and CHANFIX_NUM_OPPED
  const PROCESS_QUEUE_TIME := 30
  const TEMPBLOCK_DURATION_TIME := 3600

  // The four score fractions, in hundredths.
  const ABS_BEGIN := 20
  const ABS_END := 4
  const REL_BEGIN := 90
  const REL_END := 30

  // FIX_MIN_ABS_SCORE_END * MAX_SCORE is 161.28, so an integer score exceeds it iff it exceeds 161.
  const MIN_FIXABLE := 161

  // The documentation's min_score, given as 162: no lower integer score reaches 161.28.
  const DOC_MIN_SCORE := 162

  type Acct = int
  type Name = int
  const NO_ACCOUNT: Acct := 0

  datatype Option<+T> = None | Some(value: T) {
    function GetOr(default: T): T {
      if Some? then value else default
    }
  }

  /** The settings of the configuration file that fixing and scoring read. */
  datatype Settings = Settings(
    enableAutoFix: bool,
    enableChanFix: bool,
    enableBlocking: bool,
    stopAutoFixOnOp: bool,
    stopChanFixOnOp: bool,
    allowTopOpFix: bool,
    topOpPercent: nat,
    minFixScore: nat,
    minRequestOpTime: nat,
    minClients: nat,
    clientNeedsIdent: bool)

  /** C++ integer division: the quotient is truncated toward zero. */
  function TruncDiv(a: int, b: int): int
    requires b > 0
  {
    if a >= 0 then a / b else -(-a / b)
  }

  /** The calendar day of a time. */
  function DayOf(t: int): int {
    t / DAY
  }

  /** Conversion of a number to `int`; out of range it is undefined and yields `undef`. */
  function ToInt(x: int, undef: int): int {
    if -0x8000_0000 <= x < 0x8000_0000 then x else undef
  }

  predicate IsShort(x: int) {
    -0x8000 <= x < 0x8000
  }

  /** Conversion to a 16-bit signed `short`. */
  function ToShort(x: int): int {
    (x + 0x8000) % 0x1_0000 - 0x8000
  }

  /** Conversion to a 32-bit `unsigned int`. */
  function ToUnsigned(x: int): nat {
    x % 0x1_0000_0000
  }
}
