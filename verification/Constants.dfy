/** The constants of iLBC_define.h and the lengths that constants.c gives to memories. */
module Constants {
  const BLOCKL: nat := 240
  const NSUB: nat := 6
  const NASUB: nat := 4
  const SUBL: nat := 40
  const STATE_LEN: nat := 80
  const STATE_SHORT_LEN: nat := 58
  /** The samples of the start block that the start state leaves open. */
  const DIFF: nat := 22

  const LPC_FILTERORDER: nat := 10
  const LPC_LOOKBACK: nat := 60
  const LPC_CHIRP_SYNTDENUM: real := 0.9025
  const LPC_CHIRP_WEIGHTDENUM: real := 0.4222

  const CB_NSTAGES: nat := 3
  const CB_MEML: nat := 147
  const ST_MEML: nat := 85
  const CB_FILTERLEN: nat := 8
  const CB_HALFFILTERLEN: nat := 4
  const CB_RESRANGE: nat := 34
  const CB_MAXGAIN: real := 1.3

  const ENH_BLOCKL: nat := 80
  const ENH_BLOCKL_HALF: nat := 40
  const ENH_NBLOCKS: nat := 3
  const ENH_NBLOCKS_EXTRA: nat := 5
  const ENH_NBLOCKS_TOT: nat := 8
  const ENH_BUFL: nat := 640

  const FILTERORDER_DS: nat := 7
  const DELAY_DS: nat := 3

  const NO_OF_BYTES: nat := 50

  const FLOAT_MAX: real := 10000000000000000000000000000000000000.0
  const EPS: real := 2.220446049250313 / 10000000000000000.0
}
