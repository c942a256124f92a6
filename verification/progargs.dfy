/**
 * The argument validation of sim/progargs.cpp. The program expects exactly
 * three arguments (argc == 4): a step count, an input file and an output
 * file. The step count is taken as the int std::stoi would produce; the two
 * file checks (opening each name as an input stream) are taken as booleans.
 */
module ProgArgs {

  /** The file check: 0 when the file opens, else the given error code. */
  function CheckFile(opens: bool, errorCode: int): (r: int)
    ensures opens ==> r == 0
    ensures !opens ==> r == errorCode
  {
    if opens then 0 else errorCode
  }

  /** The return code of progargs. */
  function ProgArgs(argc: int, steps: int, inputOpens: bool, outputOpens: bool): (r: int)
    ensures argc != 4 ==> r == -1
    ensures argc == 4 && steps == 0 ==> r == -1
    ensures argc == 4 && steps < 0 ==> r == -2
    ensures argc == 4 && steps > 0 ==> -7 <= r <= 0
  {
    if argc != 4 then -1
    else if steps == 0 then -1
    else if steps <= 0 then -2
    else CheckFile(inputOpens, -3) + CheckFile(outputOpens, -4)
  }

  /** The arguments are accepted exactly when there are three of them, the
      step count is positive and both files open. */
  lemma AcceptsExactlyValidArguments(argc: int, steps: int, inputOpens: bool, outputOpens: bool)
    ensures ProgArgs(argc, steps, inputOpens, outputOpens) == 0 <==>
      argc == 4 && steps > 0 && inputOpens && outputOpens
  {
  }

  /** Every result is one of six codes, and once the count and the steps
      are valid the code tells which files failed: -3 the input, -4 the
      output, -7 both. */
  lemma ResultCodes(argc: int, steps: int, inputOpens: bool, outputOpens: bool)
    ensures ProgArgs(argc, steps, inputOpens, outputOpens) in {0, -1, -2, -3, -4, -7}
    ensures argc == 4 && steps > 0 ==>
      (ProgArgs(argc, steps, inputOpens, outputOpens) in {-3, -7} <==> !inputOpens)
    ensures argc == 4 && steps > 0 ==>
      (ProgArgs(argc, steps, inputOpens, outputOpens) in {-4, -7} <==> !outputOpens)
  {
  }

  /** The file checks are reached only with a valid count and a positive
      step count: an unopenable file never changes the code of an earlier
      failure. */
  lemma EarlierFailuresWin(argc: int, steps: int, inputOpens: bool, outputOpens: bool)
    requires argc != 4 || steps <= 0
    ensures ProgArgs(argc, steps, inputOpens, outputOpens) == ProgArgs(argc, steps, true, true)
    ensures ProgArgs(argc, steps, inputOpens, outputOpens) < 0
  {
  }

  /** The six cases of the unit tests: the valid call, two arguments, a
      zero and a negative step count, and a missing input or output file. */
  lemma UnitTestCases()
    ensures ProgArgs(4, 10, true, true) == 0
    ensures ProgArgs(3, 10, true, true) == -1
    ensures ProgArgs(4, 0, true, true) == -1
    ensures ProgArgs(4, -1, true, true) == -2
    ensures ProgArgs(4, 10, false, true) == -3
    ensures ProgArgs(4, 10, true, false) == -4
  {
  }
}
