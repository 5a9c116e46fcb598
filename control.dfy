/** The Bell-LaPadula policy engine: the four-level lattice, the conversions
    between labels and levels, the fixed subject clearance table, the message
    classification registry, the session user and the two access checks. */
module Control {

  datatype Option<T> = None | Some(value: T)

  /** Messages are identified by the id their constructor hands out. */
  type MessageId = int

  // ---------------------------------------------------------------------------
  // Security levels
  // ---------------------------------------------------------------------------

  /** The four levels, totally ordered PUBLIC < CONFIDENTIAL < PRIVILEGED < SECRET. */
  datatype SecurityLevel = Public | Confidential | Privileged | Secret
  {
    /** The level's integer value. */
    function Value(): (v: nat)
      ensures v <= 3
    {
      match this
      case Public => 0
      case Confidential => 1
      case Privileged => 2
      case Secret => 3
    }

    /** `this >= other` in the lattice. */
    predicate Dominates(other: SecurityLevel) {
      Value() >= other.Value()
    }
  }

  /** The ordering is the fixed numeric chain, and comparison is a total order. */
  lemma LevelOrder(a: SecurityLevel, b: SecurityLevel, c: SecurityLevel)
    ensures Public.Value() == 0 && Confidential.Value() == 1
    ensures Privileged.Value() == 2 && Secret.Value() == 3
    ensures a.Dominates(a)
    ensures a.Dominates(b) && b.Dominates(a) ==> a == b
    ensures a.Dominates(b) && b.Dominates(c) ==> a.Dominates(c)
    ensures a.Dominates(b) || b.Dominates(a)
    ensures a.Dominates(Public) && Secret.Dominates(a)
  {
  }

  // ---------------------------------------------------------------------------
  // Label normalisation (str.strip followed by str.capitalize, ASCII only)
  // ---------------------------------------------------------------------------

  /** The ASCII characters Python's `str.isspace` accepts. */
  predicate IsSpace(c: char) {
    9 <= c as int <= 13 || 28 <= c as int <= 32
  }

  predicate IsLower(c: char) { 'a' <= c <= 'z' }

  predicate IsUpper(c: char) { 'A' <= c <= 'Z' }

  function ToUpper(c: char): (u: char)
    ensures !IsLower(u)
    ensures IsSpace(u) <==> IsSpace(c)
    ensures !IsLower(c) ==> u == c
  {
    if IsLower(c) then (c as int - 32) as char else c
  }

  function ToLower(c: char): (l: char)
    ensures !IsUpper(l)
    ensures IsSpace(l) <==> IsSpace(c)
    ensures !IsUpper(c) ==> l == c
  {
    if IsUpper(c) then (c as int + 32) as char else c
  }

  /** Drops leading whitespace. */
  function TrimStart(s: string): (r: string)
    ensures |r| <= |s| && r == s[|s| - |r|..]
    ensures r == [] || !IsSpace(r[0])
    ensures forall k :: 0 <= k < |s| - |r| ==> IsSpace(s[k])
    ensures r == [] <==> forall k :: 0 <= k < |s| ==> IsSpace(s[k])
  {
    if s != [] && IsSpace(s[0]) then TrimStart(s[1..]) else s
  }

  /** Drops trailing whitespace. */
  function TrimEnd(s: string): (r: string)
    ensures |r| <= |s| && r == s[..|r|]
    ensures r == [] || !IsSpace(r[|r| - 1])
    ensures forall k :: |r| <= k < |s| ==> IsSpace(s[k])
    ensures r == [] <==> forall k :: 0 <= k < |s| ==> IsSpace(s[k])
  {
    if s != [] && IsSpace(s[|s| - 1]) then TrimEnd(s[..|s| - 1]) else s
  }

  /** `str.strip()`: the result has no whitespace at either end, is empty
      exactly when the input is all whitespace, and leaves a string without
      surrounding whitespace as it is. */
  function Strip(s: string): (r: string)
    ensures |r| <= |s|
    ensures r == [] || (!IsSpace(r[0]) && !IsSpace(r[|r| - 1]))
    ensures r == [] <==> forall k :: 0 <= k < |s| ==> IsSpace(s[k])
    ensures s == [] || (!IsSpace(s[0]) && !IsSpace(s[|s| - 1])) ==> r == s
  {
    TrimEnd(TrimStart(s))
  }

  /** Lower-cases every character. */
  function LowerAll(s: string): (r: string)
    ensures |r| == |s|
    ensures forall k :: 0 <= k < |s| ==> r[k] == ToLower(s[k])
  {
    seq(|s|, k requires 0 <= k < |s| => ToLower(s[k]))
  }

  /** `str.capitalize()`: first character upper case, the rest lower case;
      whitespace stays where it was. */
  function Capitalize(s: string): (r: string)
    ensures |r| == |s|
    ensures s != [] ==> r[0] == ToUpper(s[0])
    ensures forall k :: 1 <= k < |s| ==> r[k] == ToLower(s[k])
  {
    if s == [] then [] else [ToUpper(s[0])] + LowerAll(s[1..])
  }

  /** A label in normal form: no surrounding whitespace, an initial that is
      not a lower-case letter, and no upper-case letter after it. */
  predicate IsNormalLabel(s: string) {
    (s == [] || (!IsSpace(s[0]) && !IsSpace(s[|s| - 1]) && !IsLower(s[0])))
    && forall k :: 1 <= k < |s| ==> !IsUpper(s[k])
  }

  /** Capitalising a string without surrounding whitespace gives a label in
      normal form. */
  lemma CapitalizedIsNormal(t: string)
    requires t == [] || (!IsSpace(t[0]) && !IsSpace(t[|t| - 1]))
    ensures IsNormalLabel(Capitalize(t))
  {
    var r := Capitalize(t);
    if |t| > 1 {
      assert r[|r| - 1] == ToLower(t[|t| - 1]);
    }
  }

  /** `_normalize_label`: strip, then capitalize. */
  function Normalize(labelText: string): (r: string)
    ensures IsNormalLabel(r)
  {
    CapitalizedIsNormal(Strip(labelText));
    Capitalize(Strip(labelText))
  }

  /** A label already in normal form is left unchanged. */
  lemma NormalLabelIsFixed(s: string)
    requires IsNormalLabel(s)
    ensures Normalize(s) == s
  {
    assert Strip(s) == s;
    var r := Capitalize(s);
    assert |r| == |s|;
    forall k | 0 <= k < |s|
      ensures r[k] == s[k]
    {
      if k == 0 { assert r[0] == ToUpper(s[0]); }
      else { assert r[k] == ToLower(s[k]); }
    }
  }

  /** Normalising twice gives the same label as normalising once. */
  lemma NormalizeIdempotent(labelText: string)
    ensures Normalize(Normalize(labelText)) == Normalize(labelText)
  {
    NormalLabelIsFixed(Normalize(labelText));
  }

  /** Proof aid: unfolds `Normalize` once a label's stripped form is known. */
  lemma NormalizeUnfold(labelText: string, stripped: string)
    requires Strip(labelText) == stripped
    ensures Normalize(labelText) == Capitalize(stripped)
  {
  }

  predicate AllSpace(s: string) {
    forall k :: 0 <= k < |s| ==> IsSpace(s[k])
  }

  /** Leading whitespace is dropped up to the first other character. */
  lemma {:induction false} TrimStartSkipsSpace(before: string, rest: string)
    requires AllSpace(before)
    requires rest == [] || !IsSpace(rest[0])
    ensures TrimStart(before + rest) == rest
  {
    if before == [] {
      assert before + rest == rest;
    } else {
      var s := before + rest;
      assert s[0] == before[0];
      assert s[1..] == before[1..] + rest;
      assert AllSpace(before[1..]) by {
        forall k | 0 <= k < |before[1..]| ensures IsSpace(before[1..][k]) {
          assert before[1..][k] == before[k + 1];
        }
      }
      TrimStartSkipsSpace(before[1..], rest);
    }
  }

  /** Trailing whitespace is dropped back to the last other character. */
  lemma {:induction false} TrimEndSkipsSpace(rest: string, after: string)
    requires AllSpace(after)
    requires rest == [] || !IsSpace(rest[|rest| - 1])
    ensures TrimEnd(rest + after) == rest
  {
    if after == [] {
      assert rest + after == rest;
    } else {
      var s := rest + after;
      assert s[|s| - 1] == after[|after| - 1];
      var init := after[..|after| - 1];
      assert s[..|s| - 1] == rest + init;
      assert AllSpace(init) by {
        forall k | 0 <= k < |init| ensures IsSpace(init[k]) {
          assert init[k] == after[k];
        }
      }
      TrimEndSkipsSpace(rest, init);
    }
  }

  /** Stripping removes exactly the whitespace around a word. */
  lemma StripSurrounding(before: string, word: string, after: string)
    requires AllSpace(before) && AllSpace(after)
    requires word == [] || (!IsSpace(word[0]) && !IsSpace(word[|word| - 1]))
    ensures Strip(before + word + after) == word
  {
    if word == [] {
      var s := before + word + after;
      forall k | 0 <= k < |s| ensures IsSpace(s[k]) {
        if k < |before| { assert s[k] == before[k]; } else { assert s[k] == after[k - |before|]; }
      }
    } else {
      assert before + word + after == before + (word + after);
      TrimStartSkipsSpace(before, word + after);
      TrimEndSkipsSpace(word, after);
    }
  }

  /** Capitalisation does not depend on the case the input was written in. */
  lemma CapitalizeIgnoresCase(a: string, b: string)
    requires LowerAll(a) == LowerAll(b)
    ensures Capitalize(a) == Capitalize(b)
  {
    if a != [] {
      assert ToLower(a[0]) == ToLower(b[0]);
      assert ToUpper(a[0]) == ToUpper(b[0]);
      assert LowerAll(a[1..]) == LowerAll(a)[1..];
      assert LowerAll(b[1..]) == LowerAll(b)[1..];
    }
  }

  /** Only the normal form of a label decides its level. */
  lemma SameNormalFormSameLevel(a: string, b: string)
    requires Normalize(a) == Normalize(b)
    ensures LevelFromLabel(a) == LevelFromLabel(b)
  {
  }

  /** A word without surrounding whitespace normalises to its own
      capitalisation, whatever case it is written in. */
  lemma CaseIgnored(word: string, other: string)
    requires word != [] && !IsSpace(word[0]) && !IsSpace(word[|word| - 1])
    requires LowerAll(word) == LowerAll(other)
    ensures Normalize(other) == Capitalize(word)
  {
    assert ToLower(other[0]) == ToLower(word[0]);
    assert ToLower(other[|other| - 1]) == ToLower(word[|word| - 1]);
    NormalizeUnfold(other, other);
    CapitalizeIgnoresCase(word, other);
  }

  /** A label is recognised whatever whitespace surrounds it and whatever case
      it is written in. */
  lemma PaddingAndCaseIgnored(before: string, word: string, after: string, other: string)
    requires AllSpace(before) && AllSpace(after)
    requires word != [] && !IsSpace(word[0]) && !IsSpace(word[|word| - 1])
    requires LowerAll(word) == LowerAll(other)
    ensures Normalize(before + word + after) == Normalize(other)
    ensures LevelFromLabel(before + word + after) == LevelFromLabel(other)
  {
    StripSurrounding(before, word, after);
    NormalizeUnfold(before + word + after, word);
    CaseIgnored(word, other);
    SameNormalFormSameLevel(before + word + after, other);
  }

  // ---------------------------------------------------------------------------
  // Label <-> level conversion
  // ---------------------------------------------------------------------------

  /** The label table, in the order the source's dictionary iterates it. */
  const LabelTable: seq<(string, SecurityLevel)> :=
    [("Public", Public), ("Confidential", Confidential),
     ("Privileged", Privileged), ("Secret", Secret)]

  /** Dictionary lookup by name. */
  function LevelNamed(table: seq<(string, SecurityLevel)>, name: string): (r: Option<SecurityLevel>)
    ensures r.None? <==> forall k :: 0 <= k < |table| ==> table[k].0 != name
    ensures r.Some? ==> exists k :: 0 <= k < |table| && table[k] == (name, r.value)
  {
    if table == [] then None
    else if table[0].0 == name then Some(table[0].1)
    else
      var r := LevelNamed(table[1..], name);
      assert r.Some? ==> exists k :: 0 <= k < |table| && table[k] == (name, r.value) by {
        if r.Some? {
          var k :| 0 <= k < |table[1..]| && table[1..][k] == (name, r.value);
          assert table[k + 1] == (name, r.value);
        }
      }
      r
  }

  /** The first name in the table whose level has the given value: the loop
      of `label_from_level` with its early return. */
  function NameOfValue(table: seq<(string, SecurityLevel)>, value: int): (r: Option<string>)
    ensures r.None? <==> forall k :: 0 <= k < |table| ==> table[k].1.Value() != value
    ensures r.Some? ==> exists k :: (0 <= k < |table| && table[k].0 == r.value && table[k].1.Value() == value
      && forall j :: 0 <= j < k ==> table[j].1.Value() != value)
  {
    if table == [] then None
    else if table[0].1.Value() == value then Some(table[0].0)
    else
      var r := NameOfValue(table[1..], value);
      assert r.Some? ==> exists k :: (0 <= k < |table| && table[k].0 == r.value && table[k].1.Value() == value
        && forall j :: 0 <= j < k ==> table[j].1.Value() != value) by {
        if r.Some? {
          var k :| 0 <= k < |table[1..]| && table[1..][k].0 == r.value && table[1..][k].1.Value() == value
            && forall j :: 0 <= j < k ==> table[1..][j].1.Value() != value;
          assert table[k + 1] == table[1..][k];
          forall j | 0 <= j < k + 1 ensures table[j].1.Value() != value {
            if j > 0 { assert table[j] == table[1..][j - 1]; }
          }
        }
      }
      r
  }

  /** Looking a name up in the label table. */
  lemma LabelTableLookup(name: string)
    ensures LevelNamed(LabelTable, name) ==
      if name == "Public" then Some(Public)
      else if name == "Confidential" then Some(Confidential)
      else if name == "Privileged" then Some(Privileged)
      else if name == "Secret" then Some(Secret)
      else None
  {
    assert LabelTable[1..][1..][1..][1..] == [];
  }

  /** `level_from_label`: normalise, then look up; anything that is not one
      of the four canonical names is PUBLIC. */
  function LevelFromLabel(labelText: string): (level: SecurityLevel)
    ensures level == Secret <==> Normalize(labelText) == "Secret"
    ensures level == Privileged <==> Normalize(labelText) == "Privileged"
    ensures level == Confidential <==> Normalize(labelText) == "Confidential"
    ensures level == Public <==>
      Normalize(labelText) !in {"Secret", "Privileged", "Confidential"}
  {
    LabelTableLookup(Normalize(labelText));
    match LevelNamed(LabelTable, Normalize(labelText))
    case Some(level) => level
    case None => Public
  }

  /** `label_from_level`: the level's canonical name; a value that is not a
      level yields "Public". The source compares IntEnum members with ints,
      so the argument is the level's integer value. */
  function LabelFromLevel(level: int): (labelText: string)
    ensures labelText in {"Public", "Confidential", "Privileged", "Secret"}
    ensures !(0 <= level <= 3) ==> labelText == "Public"
  {
    match NameOfValue(LabelTable, level)
    case Some(name) => name
    case None => "Public"
  }

  /** The four canonical names are their own normal form. */
  lemma CanonicalLabelIsNormal(name: string)
    requires name in {"Public", "Confidential", "Privileged", "Secret"}
    ensures Normalize(name) == name
  {
    assert IsNormalLabel(name);
    NormalLabelIsFixed(name);
  }

  /** Each level's value finds its own name in the table. */
  lemma LabelsOfLevels()
    ensures LabelFromLevel(0) == "Public"
    ensures LabelFromLevel(1) == "Confidential"
    ensures LabelFromLevel(2) == "Privileged"
    ensures LabelFromLevel(3) == "Secret"
  {
  }

  /** Converting a level to its label and back gives the same level. */
  lemma LevelLabelRoundTrip(level: SecurityLevel)
    ensures LevelFromLabel(LabelFromLevel(level.Value())) == level
  {
    LabelsOfLevels();
    CanonicalLabelIsNormal(LabelFromLevel(level.Value()));
  }

  /** A label that names no level converts to PUBLIC, and so comes back as
      "Public". */
  lemma UnrecognisedLabelRoundTrip(labelText: string)
    requires Normalize(labelText) !in {"Secret", "Privileged", "Confidential"}
    ensures LabelFromLevel(LevelFromLabel(labelText).Value()) == "Public"
  {
    LabelsOfLevels();
  }

  /** For a label that names a level, converting to the level and back gives
      the label's normal form. */
  lemma LabelLevelRoundTrip(labelText: string)
    requires Normalize(labelText) in {"Public", "Confidential", "Privileged", "Secret"}
    ensures LabelFromLevel(LevelFromLabel(labelText).Value()) == Normalize(labelText)
  {
    LabelsOfLevels();
  }

  /** Proof aid: the two string facts `PaddedLowerCaseLabel` needs, that
      " secret " is " " + "secret" + " " and that "secret" differs from
      "Secret" only in case. */
  lemma PaddedSecretSpelling()
    ensures " " + "secret" + " " == " secret "
    ensures LowerAll("secret") == LowerAll("Secret")
  {
  }

  /** A label in another case and with surrounding blanks is still recognised,
      and comes back in canonical form. */
  lemma PaddedLowerCaseLabel()
    ensures LevelFromLabel(" secret ") == Secret
    ensures LabelFromLevel(LevelFromLabel(" secret ").Value()) == "Secret"
  {
    PaddedSecretSpelling();
    PaddingAndCaseIgnored(" ", "secret", " ", "Secret");
    CanonicalLabelIsNormal("Secret");
    LabelsOfLevels();
  }

  // ---------------------------------------------------------------------------
  // Subject clearances
  // ---------------------------------------------------------------------------

  /** The fixed clearance table; every other subject is PUBLIC. */
  const UserClearance: map<string, SecurityLevel> :=
    map["AdmiralAbe" := Secret,
        "CaptainCharlie" := Privileged,
        "SeamanSam" := Confidential,
        "SeamanSue" := Confidential,
        "SeamanSly" := Confidential]

  const DefaultClearance: SecurityLevel := Public

  /** `clearance_for_user`: the table's level for the five listed subjects,
      PUBLIC for every other name (the empty name included). */
  function ClearanceFor(username: string): (level: SecurityLevel)
    ensures level == Secret <==> username == "AdmiralAbe"
    ensures level == Privileged <==> username == "CaptainCharlie"
    ensures level == Confidential <==> username in {"SeamanSam", "SeamanSue", "SeamanSly"}
    ensures level == Public <==> username !in UserClearance
  {
    if username in UserClearance then UserClearance[username] else DefaultClearance
  }

  // ---------------------------------------------------------------------------
  // Classification at registration
  // ---------------------------------------------------------------------------

  /** The level `register_message` records: the label if one is given, else
      the author's clearance if an author is given, else PUBLIC. */
  function RegisteredLevel(labelText: Option<string>, author: Option<string>): (level: SecurityLevel)
    ensures level != Public ==>
      (labelText.Some? && Normalize(labelText.value) in {"Confidential", "Privileged", "Secret"})
      || (labelText.None? && author.Some? && author.value in UserClearance)
  {
    if labelText.Some? then LevelFromLabel(labelText.value)
    else if author.Some? then ClearanceFor(author.value)
    else Public
  }

  /** The three-way precedence of registration: an explicit label wins over
      an author, an author's clearance over the PUBLIC default. */
  lemma RegistrationPrecedence(labelText: string, author: Option<string>, name: string)
    ensures RegisteredLevel(Some(labelText), author) == LevelFromLabel(labelText)
    ensures RegisteredLevel(None, Some(name)) == ClearanceFor(name)
    ensures RegisteredLevel(None, None) == Public
  {
  }

  /** The label wins even when the author's clearance differs, and even when
      it is empty. */
  lemma LabelOverridesAuthor()
    ensures RegisteredLevel(Some("Secret"), Some("SeamanSam")) == Secret
    ensures RegisteredLevel(Some(""), Some("AdmiralAbe")) == Public
  {
    CanonicalLabelIsNormal("Secret");
  }

  // ---------------------------------------------------------------------------
  // Policy state
  // ---------------------------------------------------------------------------

  /** The engine's process-wide state: the classification registry and the
      session user. */
  class PolicyContext {
    /** message id -> classification */
    var messageLevel: map<MessageId, SecurityLevel>
    /** the logged-in subject, if any */
    var currentUser: Option<string>

    constructor ()
      ensures messageLevel == map[] && currentUser == None
    {
      messageLevel := map[];
      currentUser := None;
    }

    /** `set_current_user`: replaces the session user; nothing is validated. */
    method SetCurrentUser(username: Option<string>)
      modifies this`currentUser
      ensures currentUser == username
    {
      currentUser := username;
    }

    /** `get_current_user` */
    method GetCurrentUser() returns (username: Option<string>)
      ensures username == currentUser
    {
      username := currentUser;
    }

    /** `register_message`: records the classification of `messageId` by the
        three-way precedence, overwriting an earlier registration; every other
        id keeps its classification. */
    method RegisterMessage(messageId: MessageId, labelText: Option<string>, author: Option<string>)
      modifies this`messageLevel
      ensures messageLevel == old(messageLevel)[messageId := RegisteredLevel(labelText, author)]
      ensures forall id :: id != messageId ==>
        (id in messageLevel <==> id in old(messageLevel))
      ensures forall id :: id != messageId && id in old(messageLevel) ==>
        messageLevel[id] == old(messageLevel)[id]
    {
      var level: SecurityLevel;
      if labelText.Some? {
        level := LevelFromLabel(labelText.value);
      } else if author.Some? {
        level := ClearanceFor(author.value);
      } else {
        level := Public;
      }
      messageLevel := messageLevel[messageId := level];
    }

    /** The classification of a message; an unregistered id is PUBLIC. */
    function ClassificationOf(messageId: MessageId): (level: SecurityLevel)
      reads this
      ensures messageId in messageLevel ==> level == messageLevel[messageId]
      ensures level == Public <==> messageId !in messageLevel || messageLevel[messageId] == Public
    {
      if messageId in messageLevel then messageLevel[messageId] else Public
    }

    /** `_resolve_user`: the explicit subject, else the session user, else
        the empty name, which is PUBLIC. */
    function ResolveUser(username: Option<string>): (user: string)
      reads this
      ensures username.Some? ==> user == username.value
      ensures username.None? && currentUser.Some? ==> user == currentUser.value
      ensures username.None? && currentUser.None? ==> user == "" && ClearanceFor(user) == Public
    {
      if username.Some? then username.value
      else if currentUser.Some? then currentUser.value
      else ""
    }

    /** `can_read_message`, the simple security property ("no read up"). */
    function CanReadMessage(messageId: MessageId, username: Option<string>): (allowed: bool)
      reads this
      ensures username.Some? ==>
        (allowed <==> ClearanceFor(username.value).Value() >= ClassificationOf(messageId).Value())
      ensures username.None? && currentUser.Some? ==>
        (allowed <==> ClearanceFor(currentUser.value).Value() >= ClassificationOf(messageId).Value())
      ensures username.None? && currentUser.None? ==>
        (allowed <==> ClassificationOf(messageId) == Public)
      ensures messageId !in messageLevel ==> allowed
    {
      var subjectLevel := ClearanceFor(ResolveUser(username));
      var objectLevel := ClassificationOf(messageId);
      subjectLevel.Dominates(objectLevel)
    }

    /** `can_write_message`, the *-property ("no write down"). */
    function CanWriteMessage(messageId: MessageId, username: Option<string>): (allowed: bool)
      reads this
      ensures username.Some? ==>
        (allowed <==> ClearanceFor(username.value).Value() <= ClassificationOf(messageId).Value())
      ensures username.None? && currentUser.Some? ==>
        (allowed <==> ClearanceFor(currentUser.value).Value() <= ClassificationOf(messageId).Value())
      ensures username.None? && currentUser.None? ==> allowed
      ensures messageId !in messageLevel ==>
        (allowed <==> ClearanceFor(ResolveUser(username)) == Public)
    {
      var subjectLevel := ClearanceFor(ResolveUser(username));
      var objectLevel := ClassificationOf(messageId);
      objectLevel.Dominates(subjectLevel)
    }

    /** Because the levels are totally ordered, every subject may read or
        write each message, and may do both exactly at its own level. */
    lemma ReadOrWrite(messageId: MessageId, username: Option<string>)
      ensures CanReadMessage(messageId, username) || CanWriteMessage(messageId, username)
      ensures CanReadMessage(messageId, username) && CanWriteMessage(messageId, username)
        <==> ClearanceFor(ResolveUser(username)) == ClassificationOf(messageId)
    {
      LevelOrder(ClearanceFor(ResolveUser(username)), ClassificationOf(messageId), Public);
    }

    /** A more cleared subject reads everything a less cleared one reads, and
        writes only where the less cleared one may also write. */
    lemma ClearanceMonotone(messageId: MessageId, high: string, low: string)
      requires ClearanceFor(high).Dominates(ClearanceFor(low))
      ensures CanReadMessage(messageId, Some(low)) ==> CanReadMessage(messageId, Some(high))
      ensures CanWriteMessage(messageId, Some(high)) ==> CanWriteMessage(messageId, Some(low))
    {
    }

    /** Information cannot flow down: whatever one subject may read from one
        message, it may only write into a message classified at least as high. */
    lemma NoFlowDown(source: MessageId, target: MessageId, username: Option<string>)
      requires CanReadMessage(source, username) && CanWriteMessage(target, username)
      ensures ClassificationOf(target).Dominates(ClassificationOf(source))
    {
    }
  }

  /** A subject missing from the clearance table reads only PUBLIC messages
      and may write to every message. */
  lemma UnknownSubjectIsPublic(policy: PolicyContext, messageId: MessageId, name: string)
    requires name !in UserClearance
    ensures policy.CanReadMessage(messageId, Some(name)) <==> policy.ClassificationOf(messageId) == Public
    ensures policy.CanWriteMessage(messageId, Some(name))
  {
  }

  /** An unknown session user is PUBLIC and cannot read a CONFIDENTIAL
      message. */
  method UnknownUserCannotReadConfidential() returns (allowed: bool)
    ensures !allowed
  {
    var policy := new PolicyContext();
    CanonicalLabelIsNormal("Confidential");
    policy.RegisterMessage(5, Some("Confidential"), None);
    policy.SetCurrentUser(Some("RandomGuy"));
    allowed := policy.CanReadMessage(5, None);
  }

  /** An unknown session user is PUBLIC and may write up to a SECRET
      message. */
  method PublicUserCanWriteToSecret() returns (allowed: bool)
    ensures allowed
  {
    var policy := new PolicyContext();
    CanonicalLabelIsNormal("Secret");
    policy.RegisterMessage(6, Some("Secret"), None);
    policy.SetCurrentUser(Some("Visitor"));
    allowed := policy.CanWriteMessage(6, None);
  }

  /** A SECRET subject reads down but may not write down; a CONFIDENTIAL
      subject may not read up. */
  method AdmiralAndSeaman()
    returns (samReadsSecret: bool, abeReadsSecret: bool, abeReadsConfidential: bool, abeWritesPublic: bool)
    ensures !samReadsSecret && abeReadsSecret && abeReadsConfidential && !abeWritesPublic
  {
    var policy := new PolicyContext();
    policy.RegisterMessage(1, None, Some("AdmiralAbe"));
    policy.RegisterMessage(2, None, Some("SeamanSam"));
    policy.RegisterMessage(3, None, None);
    samReadsSecret := policy.CanReadMessage(1, Some("SeamanSam"));
    abeReadsSecret := policy.CanReadMessage(1, Some("AdmiralAbe"));
    abeReadsConfidential := policy.CanReadMessage(2, Some("AdmiralAbe"));
    abeWritesPublic := policy.CanWriteMessage(3, Some("AdmiralAbe"));
  }
}
