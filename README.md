# water-ryday: the plant watering model in Dafny

water-ryday is a small Android app. It keeps a list of house plants and shows, for each plant, whether it needs watering. This project models the app's logic core and proves properties of that model:

- **The plant entity** (`Plants`). `Plant` is a class with the five fields of the Java class. Its setters and `water()` keep the invariant `wateringFrequency >= 1`. Its constructor establishes the invariant: it accepts only a frequency of at least 1. `Plant.New` and `Plant.NewToday` are the constructors as callers see them, failing with IllegalArgumentException for anything below 1, so no plant that breaks the invariant can be obtained.
- **The watering-state classifier** (`Plants.Classify`, `Plants.WateringStateOn`). It maps the days since the last watering and the frequency onto HYDRATED, OKAY or THIRSTY.
- **The process-wide current date** (`Plants.Clock`). This is the static `CURRENT_DATE` that the tests move forward.
- **Calendar dates** (`Calendar`). A date is year, month and day in the proleptic Gregorian calendar that Joda-Time's `LocalDate` uses, within Joda's year range. A day ordinal turns `Days.daysBetween` into a subtraction, with Joda's `ArithmeticException` when the difference does not fit an `int`.
- **The row codec** (`PlantDB`):
  - The last-watered date is stored as `yyyy/MM/dd` text and read back by `String.split("/")` and `Integer.parseInt` on the first three pieces.
  - A plant converts to and from a row of the `plants` table.
- **The add-plant form** (`AddPlantForm`). It models the accept/reject decision of `checkForm` and the values `convertPlant` forwards, over plain strings.
- **Library semantics** (`JavaText`). This module holds the Java and Joda behaviour the code relies on:
  - `int` as a 32-bit range with wrap-around;
  - `Integer.parseInt` over ASCII digits;
  - `String.split` with a one-character separator, dropping trailing empty pieces;
  - Joda's zero-padded printing of a number.
- **Exceptions** (`Results`). Exceptions become `Result` / `Outcome` values, and each failure carries the exception kind the Java code throws.

The repository's files do not compile together as they stand. The model keeps what the code evidently does and records the mismatches here:

- `PlantDB.convertCursorToPlant` calls a six-argument `new Plant(id, ...)`, `insertPlant` calls `plant.setId` `updatePlant` calls `plant.getId()` and `fillWithValues` calls `Plant.generatePlants()`. Plant.java declares none of these. The model does not invent an id-carrying plant:
  - `PlantDB.ConvertCursorToPlant` builds the plant through the five-argument constructor.
  - The row id is kept beside the plant in `PlantDB.StoredPlant`.
- `Plant` does not implement the `DBObject` interface.
- `PlantListActivity` calls `getAll`, `insert`, `update`, `delete` and `cleanTable` on `PlantDB`. Those names belong to `AbstractDB`. All of this is outside the model.

## Model

| member | source | states |
|---|---|---|
| Plants.Classify | app/src/main/java/fr/lille/bour/armand/waterryday/models/Plant.java:180-192 | The three states are exhaustive and exclusive. HYDRATED exactly when the gap is 0 or below frequency-1. THIRSTY exactly when a non-zero gap exceeds the frequency. OKAY exactly on the last two days of the period. |
| Plants.WateringStateOn | app/src/main/java/fr/lille/bour/armand/waterryday/models/Plant.java:180-192 | Fails with ArithmeticException exactly when the day gap does not fit an int. Watered today gives HYDRATED for any frequency. A last-watered date in the future gives HYDRATED. Otherwise the state is the classification of the day-ordinal difference. |
| Plants.NewPlantRecord | app/src/main/java/fr/lille/bour/armand/waterryday/models/Plant.java:83-91 | The plant value is built exactly when the frequency is at least 1; otherwise IllegalArgumentException. What it builds has the given fields. |
| Plants.Clock.constructor | app/src/main/java/fr/lille/bour/armand/waterryday/models/Plant.java:17-21 | The current date starts at the date given for process start. |
| Plants.Clock.SetCurrentDate | app/src/main/java/fr/lille/bour/armand/waterryday/models/Plant.java:51-53 | Afterwards the current date is the given date. |
| Plants.Clock.CurrentDay | app/src/main/java/fr/lille/bour/armand/waterryday/models/Plant.java:27-29 | The day of the current date, between 1 and the length of its month. |
| Plants.Clock.CurrentMonth | app/src/main/java/fr/lille/bour/armand/waterryday/models/Plant.java:35-37 | The month of the current date, in 1..12. |
| Plants.Clock.CurrentYear | app/src/main/java/fr/lille/bour/armand/waterryday/models/Plant.java:43-45 | The year of the current date, within Joda's year range. |
| Plants.Plant.constructor | app/src/main/java/fr/lille/bour/armand/waterryday/models/Plant.java:83-91 | For a frequency of at least 1: the fields are assigned and the frequency is stored through SetWateringFrequency. The plant holds exactly the given values and is valid. |
| Plants.Plant.New | app/src/main/java/fr/lille/bour/armand/waterryday/models/Plant.java:83-91 | Succeeds exactly when the frequency is at least 1, otherwise fails with IllegalArgumentException. A built plant is fresh, valid and holds the given fields. |
| Plants.Plant.NewToday | app/src/main/java/fr/lille/bour/armand/waterryday/models/Plant.java:69-72 | The same as the five-argument constructor, with today's date as the last-watered date. |
| Plants.Plant.SetName | app/src/main/java/fr/lille/bour/armand/waterryday/models/Plant.java:105-107 | Only the name changes. |
| Plants.Plant.SetSpecie | app/src/main/java/fr/lille/bour/armand/waterryday/models/Plant.java:121-123 | Only the specie changes. |
| Plants.Plant.SetLocation | app/src/main/java/fr/lille/bour/armand/waterryday/models/Plant.java:137-139 | Only the location changes. |
| Plants.Plant.SetWateringFrequency | app/src/main/java/fr/lille/bour/armand/waterryday/models/Plant.java:154-159 | A value below 1 throws IllegalArgumentException and leaves the plant unchanged. Otherwise exactly that value is stored and nothing else changes. The invariant is preserved. |
| Plants.Plant.Water | app/src/main/java/fr/lille/bour/armand/waterryday/models/Plant.java:172-174 | Only the last-watered date changes, to the clock's date. The invariant is preserved and the plant is immediately HYDRATED, whatever its previous state. |
| Plants.Plant.GetWateringState | app/src/main/java/fr/lille/bour/armand/waterryday/models/Plant.java:180-192 | HYDRATED when watered on the clock's date. HYDRATED for a future watering date. Otherwise the classification of the day gap to the clock's date. |
| Plants.UrgencyNeverDecreases | app/src/main/java/fr/lille/bour/armand/waterryday/models/Plant.java:181-191 | For a fixed frequency and a non-negative gap, a larger gap is never less urgent (HYDRATED, then OKAY, then THIRSTY). |
| Plants.FutureWateringIsHydrated | app/src/main/java/fr/lille/bour/armand/waterryday/models/Plant.java:181-186 | A negative gap with a valid frequency is always HYDRATED. |
| Plants.DailySchedule | app/src/test/java/fr/lille/bour/armand/waterryday/PlantTest.java:61-81 | Frequency 1: gap 0 HYDRATED, gap 1 OKAY, gap 2 or more THIRSTY. |
| Plants.EveryThreeDaysSchedule | app/src/test/java/fr/lille/bour/armand/waterryday/PlantTest.java:99-128 | Frequency 3: gaps 0-1 HYDRATED, gaps 2-3 OKAY, gap 4 or more THIRSTY. |
| Plants.StateAfterDays | app/src/test/java/fr/lille/bour/armand/waterryday/PlantTest.java:33-39 | A plant watered on a date and seen n days later, as the tests do by advancing the date, is in the state gap n gives. |
| Plants.StateNeverImproves | app/src/main/java/fr/lille/bour/armand/waterryday/models/Plant.java:180-192 | As the current date moves forward from the watering date, the state never becomes less urgent. |
| Plants.ClassifyAsWritten | app/src/main/java/fr/lille/bour/armand/waterryday/models/Plant.java:182-191 | The classification with Java's int arithmetic: watered today is HYDRATED, and wherever `frequency - dayGap` fits an int the decision is the exact classifier's. |
| Plants.AsWrittenDiffersOnlyForFutureDates | app/src/main/java/fr/lille/bour/armand/waterryday/models/Plant.java:181-182 | For a valid frequency the wrap-around can only change the result when the gap is negative. |
| Plants.AsWrittenWrapsForFutureDate | app/src/main/java/fr/lille/bour/armand/waterryday/models/Plant.java:182-188 | Frequency 2147483647 with gap -1: the Java code says THIRSTY, the intended classification says HYDRATED. |
| Calendar.DaysInMonth | app/src/main/java/fr/lille/bour/armand/waterryday/models/database/PlantDB.java:151 | Months have 28 to 31 days, and February has 29 exactly in Gregorian leap years. This bounds the dates `new LocalDate(y, m, d)` accepts. |
| Calendar.DaysBetween | app/src/main/java/fr/lille/bour/armand/waterryday/models/Plant.java:181 | The day count is the ordinal difference, or ArithmeticException when it does not fit an int. It is 0 exactly for equal dates, positive exactly when the end is later and negative exactly when it is earlier. |
| Calendar.OrdinalOrder | app/src/main/java/fr/lille/bour/armand/waterryday/models/Plant.java:181 | The day ordinal orders dates exactly as the calendar does, and two dates have the same ordinal only when they are equal. |
| Calendar.AddDays | app/src/test/java/fr/lille/bour/armand/waterryday/PlantTest.java:37-39 | Adding n days moves the ordinal by exactly n. |
| Calendar.DaysBetweenAddDays | app/src/test/java/fr/lille/bour/armand/waterryday/PlantTest.java:37-39 | A date n days later is n days away, and -n days away in the other direction. |
| JavaText.Wrap32 | app/src/main/java/fr/lille/bour/armand/waterryday/models/Plant.java:182 | Java int subtraction: exact in range, otherwise congruent modulo 2^32. |
| JavaText.PaddedInteger | app/src/main/java/fr/lille/bour/armand/waterryday/models/database/PlantDB.java:163 | A printed date field is non-empty and contains no '/'. |
| JavaText.ParseInt | app/src/main/java/fr/lille/bour/armand/waterryday/activity/fragment/AddPlantFragment.java:83 | `Integer.parseInt`: an accepted text starts with a digit or a sign, has only digits after that, and ends in a digit. A negative result comes from a leading '-'. |
| JavaText.Split | app/src/main/java/fr/lille/bour/armand/waterryday/models/database/PlantDB.java:147 | `split("/")`: text without '/' is one piece. Otherwise the pieces between separators are kept up to the last non-empty one, and only empty pieces are dropped. No piece contains '/'. |
| JavaText.Segments | app/src/main/java/fr/lille/bour/armand/waterryday/models/database/PlantDB.java:147 | The pieces between separators contain no '/' and join back to the text. |
| JavaText.DropTrailingEmpty | app/src/main/java/fr/lille/bour/armand/waterryday/models/database/PlantDB.java:147 | `split` keeps a prefix of the pieces that ends in a non-empty piece, and drops only empty pieces. |
| JavaText.ParseIntOfPaddedInteger | app/src/main/java/fr/lille/bour/armand/waterryday/models/database/PlantDB.java:148-150 | `Integer.parseInt` of a number printed with any zero padding gives that number back, negative numbers included. |
| JavaText.ParseIntRejects | app/src/main/java/fr/lille/bour/armand/waterryday/activity/fragment/AddPlantFragment.java:82-95 | Empty text, a lone sign, a non-digit after the first character or a bad first character throw NumberFormatException. |
| JavaText.SplitThree | app/src/main/java/fr/lille/bour/armand/waterryday/models/database/PlantDB.java:147 | Three '/'-free pieces joined by '/', the last non-empty, split back into exactly those three. |
| JavaText.SplitThreeThenRest | app/src/main/java/fr/lille/bour/armand/waterryday/models/database/PlantDB.java:147-150 | With more text after a third '/', the first three pieces are still the three given. |
| PlantDB.FormatDate | app/src/main/java/fr/lille/bour/armand/waterryday/models/database/PlantDB.java:163 | The `yyyy/MM/dd` text of a date splits on '/' into exactly the padded year, month and day. |
| PlantDB.ParseField | app/src/main/java/fr/lille/bour/armand/waterryday/models/database/PlantDB.java:148-150 | `Integer.parseInt(fields[i])`: the value of the piece. ArrayIndexOutOfBounds past the end, NumberFormatException for a piece that is not an int. |
| PlantDB.ParseDate | app/src/main/java/fr/lille/bour/armand/waterryday/models/database/PlantDB.java:147-151 | A parsed date has year, month and day equal to the parses of pieces 0, 1 and 2. The failures are exactly the three exception kinds the code can raise. |
| PlantDB.ParseDateFailsExactly | app/src/main/java/fr/lille/bour/armand/waterryday/models/database/PlantDB.java:147-151 | Parsing fails, never with a default, exactly when there are fewer than three pieces, one of the first three is not an int, or they form no calendar date. |
| PlantDB.ParsePaddedPieces | app/src/main/java/fr/lille/bour/armand/waterryday/models/database/PlantDB.java:147-151 | Three numbers with any padding parse to the date they spell, or fail with IllegalFieldValueException when they spell none. |
| PlantDB.ParseFormatRoundTrip | app/src/main/java/fr/lille/bour/armand/waterryday/models/database/PlantDB.java:147-163 | Parsing the stored `yyyy/MM/dd` text of any date gives that date back, for all years Joda represents. |
| PlantDB.FormatDateInjective | app/src/main/java/fr/lille/bour/armand/waterryday/models/database/PlantDB.java:163 | Distinct dates are stored as distinct text. |
| PlantDB.FormatDateLength | app/src/main/java/fr/lille/bour/armand/waterryday/models/database/PlantDB.java:28-35 | For years 0 to 9999 the stored text is 10 characters, within the VARCHAR(12) column. |
| PlantDB.UnpaddedMonthIsRewritten | app/src/main/java/fr/lille/bour/armand/waterryday/models/database/PlantDB.java:147-151 | An unpadded month parses to the date, but writing that date back gives different text. So format after parse is the identity only on canonical text. |
| PlantDB.ExtraPiecesIgnored | app/src/main/java/fr/lille/bour/armand/waterryday/models/database/PlantDB.java:147-151 | Pieces after the third are ignored. |
| PlantDB.MissingDayFails | app/src/main/java/fr/lille/bour/armand/waterryday/models/database/PlantDB.java:147-150 | A trailing '/' in place of the day leaves two pieces, and the day access is out of bounds. |
| PlantDB.EmptyMonthFails | app/src/main/java/fr/lille/bour/armand/waterryday/models/database/PlantDB.java:147-149 | An empty month piece throws NumberFormatException. |
| PlantDB.ConvertPlantToContentValues | app/src/main/java/fr/lille/bour/armand/waterryday/models/database/PlantDB.java:162-171 | Name, specie, location and frequency are carried unchanged. No id column is written. The date text parses back to the plant's date. |
| PlantDB.ConvertCursorToPlant | app/src/main/java/fr/lille/bour/armand/waterryday/models/database/PlantDB.java:138-154 | Success exactly when the date parses and the stored frequency is at least 1. A date failure is passed through, and a frequency below 1 is IllegalArgumentException. A result is valid and holds the row's id and columns in the order of the column list. |
| PlantDB.PlantRowRoundTrip | app/src/main/java/fr/lille/bour/armand/waterryday/models/database/PlantDB.java:138-171 | Writing a valid plant and reading its row back gives the same plant and the row's id. |
| PlantDB.RowPlantRowRoundTrip | app/src/main/java/fr/lille/bour/armand/waterryday/models/database/PlantDB.java:138-171 | A row with canonical date text and a valid frequency reads into a plant that is written back as the same five data columns. |
| AddPlantForm.CheckForm | app/src/main/java/fr/lille/bour/armand/waterryday/activity/fragment/AddPlantFragment.java:69-98 | Empty name and specie is refused first, whatever the frequency. Otherwise text that is not an int is refused as invalid, and an int below 1 is refused as wrong. |
| AddPlantForm.AcceptedExactly | app/src/main/java/fr/lille/bour/armand/waterryday/activity/fragment/AddPlantFragment.java:69-98 | Accepted exactly when a name or a specie is given and the frequency text parses to an int of at least 1. The location is never consulted. |
| AddPlantForm.ConvertPlant | app/src/main/java/fr/lille/bour/armand/waterryday/activity/fragment/AddPlantFragment.java:100-111 | Name, specie and location are forwarded unchanged with the parsed frequency, and NumberFormatException is thrown exactly when the text is not an int. |
| AddPlantForm.AcceptedFormBuildsPlant | app/src/main/java/fr/lille/bour/armand/waterryday/activity/fragment/AddPlantFragment.java:100-104 | An accepted form always converts. Its frequency is at least 1, so building the plant cannot throw. |
| AddPlantForm.FrequencyTexts | app/src/main/java/fr/lille/bour/armand/waterryday/activity/fragment/AddPlantFragment.java:82-95 | For typical frequency texts:<br>- plain and '+'-signed numbers of at least 1 are accepted;<br>- zero and negative numbers are refused as wrong;<br>- empty text, a lone sign and 2147483648 are refused as invalid. |

## Left out

- Android UI and async plumbing are not part of this model: PlantListActivity, AddPlantActivity, PlantDetailFragment, Toasts, `requestFocus` and reading `EditText` fields. `checkForm` is modelled as its decision over three strings.
- The SQLite store is not modelled. This covers `getAllPlants` with its cursor loop, `insertPlant`, `updatePlant`, `deletePlant`, `fillWithValues`, AbstractDB, DatabaseHelper's DDL and the DBObject interface. Their behaviour lives in `SQLiteDatabase`, whose semantics are not visible. The row is modelled as a tuple of column values.
- The wall clock is not read. `new LocalDate()` in the static initialiser and the four-argument constructor is an input: `Plants.Clock.constructor`'s `today` and `Plants.Plant.NewToday`'s `today`.
- The getters are plain field reads. They appear only as the fields of `Plants.Plant.Record`.
- `Integer.parseInt` accepts only ASCII digits here. Java also accepts other Unicode decimal digits.
- Null strings are not modelled. A null date column throws NullPointerException at `split`; a null name, specie or location is only stored.
- `cursor.getInt` on a column that does not hold an integer is not modelled. SQLite's type coercion is outside the model, so the frequency and id columns are taken as ints.
- `PlantDB.ConvertCursorToPlant`: it uses the five-argument constructor and keeps the id outside the plant, because the six-argument constructor the source calls does not exist in Plant.java.
- Joda-Time's internals are not modelled: time zones, chronology selection and pattern parsing in general. Only `yyyy/MM/dd` printing, the ISO calendar fields and `Days.daysBetween` are modelled.
- `Plants.WateringStateOn` classifies the day gap over exact integers, with `Plants.Classify`. The Java expression's int wrap-around is modelled separately in `Plants.ClassifyAsWritten` and recorded under Findings.
- `Plants.Plant.GetWateringState` is computed over exact integers, as `Plants.Classify`. The Java expression's int wrap-around is modelled separately in `Plants.ClassifyAsWritten` and recorded under Findings.

## Findings

| source | as written | input that shows it | evidently intended | confidence | as-written member | corrected member |
|---|---|---|---|---|---|---|
| app/src/main/java/fr/lille/bour/armand/waterryday/models/Plant.java:182 | `daysLeft = wateringFrequency - dayGap` is computed in 32-bit int and wraps around | wateringFrequency = 2147483647 (which the form accepts) and a last-watered date one day after the current date (dayGap = -1): daysLeft wraps to -2147483648 and the plant reads THIRSTY | a plant whose watering date is in the future is HYDRATED, as for every smaller frequency | medium, not executed | Plants.AsWrittenWrapsForFutureDate | Plants.FutureWateringIsHydrated |
