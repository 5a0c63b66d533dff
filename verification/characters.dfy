// Digits and letters, whatever the locale.
module Characters {
  import opened CheckInKeys

  predicate IsDigit(c: char) {
    '0' <= c <= '9'
  }

  predicate IsLetter(c: char) {
    'A' <= UpperChar(c) <= 'Z'
  }
}
