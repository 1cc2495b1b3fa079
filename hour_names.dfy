/**
 * The `nums` table that examples/word_clock.py and examples/word_time.py
 * both define inside approx_time.
 */
module HourNames {
  import opened Text

  /** nums: the hour names, with 0 and 12 both "twelve". */
  const Nums: map<int, string> := map[
    0 := "twelve", 1 := "one", 2 := "two", 3 := "three", 4 := "four",
    5 := "five", 6 := "six", 7 := "seven", 8 := "eight", 9 := "nine",
    10 := "ten", 11 := "eleven", 12 := "twelve"]

  /** The table is defined on exactly 0..12, and no name is empty or holds a space. */
  lemma NumsDomain(h: int)
    ensures h in Nums <==> 0 <= h <= 12
    ensures h in Nums ==> |Nums[h]| > 0 && NoSpace(Nums[h])
  {}
}
