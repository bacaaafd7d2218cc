/** Lookups that the converter's own tests rely on, proved against the
    table: each name reaches the expected entry because that entry matches
    and no entry before it does. The nested `if`s split the index range of
    the earlier entries so that each one is examined on its own. */
module Lookups {
  import opened Registry

  /** The name, its upper-case spelling and two of its aliases reach the kilometre entry. */
  lemma KilometreLookups()
    ensures FindUnit("km") == FindUnit("KM") == FindUnit("kilometer") == FindUnit("kilometres") == Some(KILOMETRE)
  {
    FindUnitReturnsFirstMatching("km", 0);
    FindUnitReturnsFirstMatching("KM", 0);
    FindUnitReturnsFirstMatching("kilometer", 0);
    AliasMakesMatch(KILOMETRE, "kilometres", 3);
    FindUnitReturnsFirstMatching("kilometres", 0);
  }

  /** The name and a mixed-case alias reach the metre entry. */
  lemma MetreLookups()
    ensures FindUnit("m") == FindUnit("MeTErs") == Some(METRE)
  {
    forall k | 0 <= k < 1 ensures !Matches(UNITS[k], "m") {
    }
    FindUnitReturnsFirstMatching("m", 1);
    forall k | 0 <= k < 1 ensures !Matches(UNITS[k], "MeTErs") {
    }
    AliasMakesMatch(METRE, "MeTErs", 1);
    FindUnitReturnsFirstMatching("MeTErs", 1);
  }

  /** "mi" reaches the mile entry. */
  lemma MileLookup()
    ensures FindUnit("mi") == Some(MILE)
  {
    forall k | 0 <= k < 4 ensures !Matches(UNITS[k], "mi") {
      if k < 2 {
        if k < 1 {} else {}
      } else {
        if k < 3 {} else {}
      }
    }
    FindUnitReturnsFirstMatching("mi", 4);
  }

  /** The name and an alias reach the Celsius entry. */
  lemma CelsiusLookups()
    ensures FindUnit("C") == FindUnit("celsius") == Some(CELSIUS)
  {
    forall k | 0 <= k < 8 ensures !Matches(UNITS[k], "C") {
      if k < 4 {
        if k < 2 {
          if k < 1 {} else {}
        } else {
          if k < 3 {} else {}
        }
      } else {
        if k < 6 {
          if k < 5 {} else {}
        } else {
          if k < 7 {} else {}
        }
      }
    }
    FindUnitReturnsFirstMatching("C", 8);
    forall k | 0 <= k < 8 ensures !Matches(UNITS[k], "celsius") {
      if k < 4 {
        if k < 2 {
          if k < 1 {} else {}
        } else {
          if k < 3 {} else {}
        }
      } else {
        if k < 6 {
          if k < 5 {} else {}
        } else {
          if k < 7 {} else {}
        }
      }
    }
    FindUnitReturnsFirstMatching("celsius", 8);
  }

  /** "F" reaches the Fahrenheit entry. */
  lemma FahrenheitLookup()
    ensures FindUnit("F") == Some(FAHRENHEIT)
  {
    forall k | 0 <= k < 9 ensures !Matches(UNITS[k], "F") {
      if k < 4 {
        if k < 2 {
          if k < 1 {} else {}
        } else {
          if k < 3 {} else {}
        }
      } else {
        if k < 6 {
          if k < 5 {} else {}
        } else {
          if k < 7 {
          } else {
            if k < 8 {} else {}
          }
        }
      }
    }
    FindUnitReturnsFirstMatching("F", 9);
  }

  /** The alias "fahrenheit" is found when spelt in upper case. */
  lemma UpperCaseAliasLookup()
    ensures FindUnit("FAHRENHEIT") == Some(FAHRENHEIT)
  {
    forall k | 0 <= k < 9 ensures !Matches(UNITS[k], "FAHRENHEIT") {
      if k < 4 {
        if k < 2 {
          if k < 1 {} else {}
        } else {
          if k < 3 {} else {}
        }
      } else {
        if k < 6 {
          if k < 5 {} else {}
        } else {
          if k < 7 {
          } else {
            if k < 8 {} else {}
          }
        }
      }
    }
    FindUnitReturnsFirstMatching("FAHRENHEIT", 9);
  }

  /** "K" reaches the Kelvin entry. */
  lemma KelvinLookup()
    ensures FindUnit("K") == Some(KELVIN)
  {
    forall k | 0 <= k < 10 ensures !Matches(UNITS[k], "K") {
      if k < 5 {
        if k < 2 {
          if k < 1 {} else {}
        } else {
          if k < 3 {
          } else {
            if k < 4 {} else {}
          }
        }
      } else {
        if k < 7 {
          if k < 6 {} else {}
        } else {
          if k < 8 {
          } else {
            if k < 9 {} else {}
          }
        }
      }
    }
    FindUnitReturnsFirstMatching("K", 10);
  }

  /** "kg" reaches the kilogram entry. */
  lemma KilogramLookup()
    ensures FindUnit("kg") == Some(KILOGRAM)
  {
    forall k | 0 <= k < 11 ensures !Matches(UNITS[k], "kg") {
      if k < 5 {
        if k < 2 {
          if k < 1 {} else {}
        } else {
          if k < 3 {
          } else {
            if k < 4 {} else {}
          }
        }
      } else {
        if k < 8 {
          if k < 6 {
          } else {
            if k < 7 {} else {}
          }
        } else {
          if k < 9 {
          } else {
            if k < 10 {} else {}
          }
        }
      }
    }
    FindUnitReturnsFirstMatching("kg", 11);
  }

  /** "g" reaches the gram entry. */
  lemma GramLookup()
    ensures FindUnit("g") == Some(GRAM)
  {
    forall k | 0 <= k < 12 ensures !Matches(UNITS[k], "g") {
      if k < 6 {
        if k < 3 {
          if k < 1 {
          } else {
            if k < 2 {} else {}
          }
        } else {
          if k < 4 {
          } else {
            if k < 5 {} else {}
          }
        }
      } else {
        if k < 9 {
          if k < 7 {
          } else {
            if k < 8 {} else {}
          }
        } else {
          if k < 10 {
          } else {
            if k < 11 {} else {}
          }
        }
      }
    }
    FindUnitReturnsFirstMatching("g", 12);
  }

  /** "mg" reaches the milligram entry. */
  lemma MilligramLookup()
    ensures FindUnit("mg") == Some(MILLIGRAM)
  {
    forall k | 0 <= k < 13 ensures !Matches(UNITS[k], "mg") {
      if k < 6 {
        if k < 3 {
          if k < 1 {
          } else {
            if k < 2 {} else {}
          }
        } else {
          if k < 4 {
          } else {
            if k < 5 {} else {}
          }
        }
      } else {
        if k < 9 {
          if k < 7 {
          } else {
            if k < 8 {} else {}
          }
        } else {
          if k < 11 {
            if k < 10 {} else {}
          } else {
            if k < 12 {} else {}
          }
        }
      }
    }
    FindUnitReturnsFirstMatching("mg", 13);
  }

  /** "lb" reaches the pound entry. */
  lemma PoundLookup()
    ensures FindUnit("lb") == Some(POUND)
  {
    forall k | 0 <= k < 14 ensures !Matches(UNITS[k], "lb") {
      if k < 7 {
        if k < 3 {
          if k < 1 {
          } else {
            if k < 2 {} else {}
          }
        } else {
          if k < 5 {
            if k < 4 {} else {}
          } else {
            if k < 6 {} else {}
          }
        }
      } else {
        if k < 10 {
          if k < 8 {
          } else {
            if k < 9 {} else {}
          }
        } else {
          if k < 12 {
            if k < 11 {} else {}
          } else {
            if k < 13 {} else {}
          }
        }
      }
    }
    FindUnitReturnsFirstMatching("lb", 14);
  }

  /** A name that is neither a unit name nor an alias is not found. */
  lemma UnknownNameLookup()
    ensures FindUnit("bogus") == None
  {
    forall k | 0 <= k < 17 ensures !Matches(UNITS[k], "bogus") {
      if k < 8 {
        if k < 4 {
          if k < 2 {
            if k < 1 {} else {}
          } else {
            if k < 3 {} else {}
          }
        } else {
          if k < 6 {
            if k < 5 {} else {}
          } else {
            if k < 7 {} else {}
          }
        }
      } else {
        if k < 12 {
          if k < 10 {
            if k < 9 {} else {}
          } else {
            if k < 11 {} else {}
          }
        } else {
          if k < 14 {
            if k < 13 {} else {}
          } else {
            if k < 15 {
            } else {
              if k < 16 {} else {}
            }
          }
        }
      }
    }
    FirstMatchFromIsLeast(UNITS, "bogus", 0);
  }
}
