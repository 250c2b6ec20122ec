/**
 The key tables of the HID path: the controller's character table
 (controller/agent_engine.py), the reference US layout (agent/hid_injector.rs)
 and the agent's keycode maps for Windows and macOS
 (agent/ozma_desktop_agent.py). Key codes are usages of section 10
 (Keyboard/Keypad page) of the HID Usage Tables.
 */
module HidTables {
  import opened Options

  datatype KeyStroke = KeyStroke(modifier: int, key: int)

  const MOD_NONE := 0x00
  const MOD_LSHIFT := 0x02

  // ---------------------------------------------------------------------
  // The controller's tables
  // ---------------------------------------------------------------------

  /** `_CHAR_TO_HID`; every modifier in it is 0. */
  function CharToHid(c: char): Option<int> {
    if 'a' <= c <= 'z' then Some(4 + (c as int - 'a' as int))
    else if '1' <= c <= '9' then Some(30 + (c as int - '1' as int))
    else match c
      case '0' => Some(39)
      case ' ' => Some(0x2C)
      case '-' => Some(0x2D)
      case '=' => Some(0x2E)
      case '[' => Some(0x2F)
      case ']' => Some(0x30)
      case '\\' => Some(0x31)
      case ';' => Some(0x33)
      case '\'' => Some(0x34)
      case '`' => Some(0x35)
      case ',' => Some(0x36)
      case '.' => Some(0x37)
      case '/' => Some(0x38)
      case '\n' => Some(0x28)
      case '\t' => Some(0x2B)
      case _ => None
  }

  /** `_SHIFT_CHARS` */
  function ShiftChars(c: char): Option<int> {
    match c
    case '!' => Some(30)
    case '@' => Some(31)
    case '#' => Some(32)
    case '$' => Some(33)
    case '%' => Some(34)
    case '^' => Some(35)
    case '&' => Some(36)
    case '*' => Some(37)
    case '(' => Some(38)
    case ')' => Some(39)
    case '_' => Some(0x2D)
    case '+' => Some(0x2E)
    case '{' => Some(0x2F)
    case '}' => Some(0x30)
    case '|' => Some(0x31)
    case ':' => Some(0x33)
    case '"' => Some(0x34)
    case '~' => Some(0x35)
    case '<' => Some(0x36)
    case '>' => Some(0x37)
    case '?' => Some(0x38)
    case _ => None
  }

  /** U+212A, the one character outside ASCII whose lower-case form is in the table. */
  const KELVIN: char := '\U{212A}'

  /** `str.lower()` as far as the table lookup can tell: characters whose
      lower-case form is outside ASCII miss the table either way. */
  function Lower(c: char): char {
    if 'A' <= c <= 'Z' then (c as int + 32) as char
    else if c == KELVIN then 'k'
    else c
  }

  /** `isupper() and isalpha()` on the characters whose lower-case form is in the table. */
  predicate IsUpperLetter(c: char) {
    'A' <= c <= 'Z' || c == KELVIN
  }

  /** The stroke that typing one character sends, if it sends any. */
  function TypedStroke(c: char): Option<KeyStroke> {
    match CharToHid(Lower(c))
    case Some(key) => Some(KeyStroke(if IsUpperLetter(c) then MOD_LSHIFT else MOD_NONE, key))
    case None =>
      match ShiftChars(c)
      case Some(key) => Some(KeyStroke(MOD_LSHIFT, key))
      case None => None
  }

  // ---------------------------------------------------------------------
  // The reference US layout
  // ---------------------------------------------------------------------

  datatype KeyName =
    | Letter(letter: char) | Digit(digit: char)
    | Enter | Tab | Space | Minus | Equal | LBracket | RBracket | Backslash
    | Semicolon | Quote | Grave | Comma | Period | Slash

  /** `HID_KEYS` */
  function HidKeys(name: KeyName): int {
    match name
    case Letter(c) => if 'a' <= c <= 'z' then 0x04 + (c as int - 'a' as int) else 0
    case Digit(c) => if c == '0' then 0x27 else if '1' <= c <= '9' then 0x1E + (c as int - '1' as int) else 0
    case Enter => 0x28
    case Tab => 0x2B
    case Space => 0x2C
    case Minus => 0x2D
    case Equal => 0x2E
    case LBracket => 0x2F
    case RBracket => 0x30
    case Backslash => 0x31
    case Semicolon => 0x33
    case Quote => 0x34
    case Grave => 0x35
    case Comma => 0x36
    case Period => 0x37
    case Slash => 0x38
  }

  /** What each insertion into the layout map adds, by character. */
  function UsKey(c: char): Option<(int, KeyName)> {
    if 'a' <= c <= 'z' then Some((MOD_NONE, Letter(c)))
    else if 'A' <= c <= 'Z' then Some((MOD_LSHIFT, Letter((c as int + 32) as char)))
    else if '0' <= c <= '9' then Some((MOD_NONE, Digit(c)))
    else match c
      case '!' => Some((MOD_LSHIFT, Digit('1')))
      case '@' => Some((MOD_LSHIFT, Digit('2')))
      case '#' => Some((MOD_LSHIFT, Digit('3')))
      case '$' => Some((MOD_LSHIFT, Digit('4')))
      case '%' => Some((MOD_LSHIFT, Digit('5')))
      case '^' => Some((MOD_LSHIFT, Digit('6')))
      case '&' => Some((MOD_LSHIFT, Digit('7')))
      case '*' => Some((MOD_LSHIFT, Digit('8')))
      case '(' => Some((MOD_LSHIFT, Digit('9')))
      case ')' => Some((MOD_LSHIFT, Digit('0')))
      case ' ' => Some((MOD_NONE, Space))
      case '-' => Some((MOD_NONE, Minus))
      case '=' => Some((MOD_NONE, Equal))
      case '[' => Some((MOD_NONE, LBracket))
      case ']' => Some((MOD_NONE, RBracket))
      case '\\' => Some((MOD_NONE, Backslash))
      case ';' => Some((MOD_NONE, Semicolon))
      case '\'' => Some((MOD_NONE, Quote))
      case '`' => Some((MOD_NONE, Grave))
      case ',' => Some((MOD_NONE, Comma))
      case '.' => Some((MOD_NONE, Period))
      case '/' => Some((MOD_NONE, Slash))
      case '_' => Some((MOD_LSHIFT, Minus))
      case '+' => Some((MOD_LSHIFT, Equal))
      case '{' => Some((MOD_LSHIFT, LBracket))
      case '}' => Some((MOD_LSHIFT, RBracket))
      case '|' => Some((MOD_LSHIFT, Backslash))
      case ':' => Some((MOD_LSHIFT, Semicolon))
      case '"' => Some((MOD_LSHIFT, Quote))
      case '~' => Some((MOD_LSHIFT, Grave))
      case '<' => Some((MOD_LSHIFT, Comma))
      case '>' => Some((MOD_LSHIFT, Period))
      case '?' => Some((MOD_LSHIFT, Slash))
      case '\n' => Some((MOD_NONE, Enter))
      case '\t' => Some((MOD_NONE, Tab))
      case _ => None
  }

  function UsStroke(c: char): Option<KeyStroke> {
    match UsKey(c)
    case Some((modifier, name)) => Some(KeyStroke(modifier, HidKeys(name)))
    case None => None
  }

  lemma LettersAgree(c: char)
    requires 'a' <= c <= 'z' || 'A' <= c <= 'Z'
    ensures TypedStroke(c) == UsStroke(c)
  {
  }

  lemma SignsAgree(c: char)
    requires c < '0'
    ensures TypedStroke(c) == UsStroke(c)
  {
  }

  lemma DigitsAgree(c: char)
    requires '0' <= c <= '9'
    ensures TypedStroke(c) == UsStroke(c)
  {
  }

  lemma OthersAgree(c: char)
    requires c > '9' && !('a' <= c <= 'z') && !('A' <= c <= 'Z') && c != KELVIN
    ensures TypedStroke(c) == UsStroke(c)
  {
  }

  /** The controller and the reference layout agree on every character but one. */
  lemma TablesAgree(c: char)
    ensures c != KELVIN ==> TypedStroke(c) == UsStroke(c)
    ensures TypedStroke(KELVIN) == UsStroke('K') && UsStroke(KELVIN) == None
  {
    if 'a' <= c <= 'z' || 'A' <= c <= 'Z' {
      LettersAgree(c);
    } else if c < '0' {
      SignsAgree(c);
    } else if c <= '9' {
      DigitsAgree(c);
    } else if c != KELVIN {
      OthersAgree(c);
    }
  }

  function NameOfKey(key: int): Option<KeyName> {
    if 0x04 <= key <= 0x1D then Some(Letter((key - 0x04 + 'a' as int) as char))
    else if 0x1E <= key <= 0x26 then Some(Digit((key - 0x1E + '1' as int) as char))
    else match key
      case 0x27 => Some(Digit('0'))
      case 0x28 => Some(Enter)
      case 0x2B => Some(Tab)
      case 0x2C => Some(Space)
      case 0x2D => Some(Minus)
      case 0x2E => Some(Equal)
      case 0x2F => Some(LBracket)
      case 0x30 => Some(RBracket)
      case 0x31 => Some(Backslash)
      case 0x33 => Some(Semicolon)
      case 0x34 => Some(Quote)
      case 0x35 => Some(Grave)
      case 0x36 => Some(Comma)
      case 0x37 => Some(Period)
      case 0x38 => Some(Slash)
      case _ => None
  }

  function CharOfName(name: KeyName, shift: bool): Option<char> {
    match name
    case Letter(c) => if !('a' <= c <= 'z') then None else Some(if shift then (c as int - 32) as char else c)
    case Digit(c) => if '0' <= c <= '9' then Some(if shift then ")!@#$%^&*("[c as int - '0' as int] else c) else None
    case Enter => if shift then None else Some('\n')
    case Tab => if shift then None else Some('\t')
    case Space => if shift then None else Some(' ')
    case Minus => Some(if shift then '_' else '-')
    case Equal => Some(if shift then '+' else '=')
    case LBracket => Some(if shift then '{' else '[')
    case RBracket => Some(if shift then '}' else ']')
    case Backslash => Some(if shift then '|' else '\\')
    case Semicolon => Some(if shift then ':' else ';')
    case Quote => Some(if shift then '"' else '\'')
    case Grave => Some(if shift then '~' else '`')
    case Comma => Some(if shift then '<' else ',')
    case Period => Some(if shift then '>' else '.')
    case Slash => Some(if shift then '?' else '/')
  }

  /** The inverse of the US layout. */
  function UsChar(key: int, shift: bool): Option<char> {
    match NameOfKey(key)
    case Some(name) => CharOfName(name, shift)
    case None => None
  }

  predicate ValidName(name: KeyName) {
    match name
    case Letter(c) => 'a' <= c <= 'z'
    case Digit(c) => '0' <= c <= '9'
    case _ => true
  }

  lemma NameOfKeyInverts(name: KeyName, key: int)
    ensures ValidName(name) && HidKeys(name) == key <==> NameOfKey(key) == Some(name)
  {
  }

  lemma CharOfUsKey(c: char)
    requires UsKey(c).Some?
    ensures var (modifier, name) := UsKey(c).value;
            ValidName(name) && (modifier == MOD_NONE || modifier == MOD_LSHIFT)
            && CharOfName(name, modifier == MOD_LSHIFT) == Some(c)
  {
  }

  lemma UsKeyOfLetterOrDigit(name: KeyName, shift: bool)
    requires CharOfName(name, shift).Some? && (name.Letter? || name.Digit?)
    ensures UsKey(CharOfName(name, shift).value) == Some((if shift then MOD_LSHIFT else MOD_NONE, name))
            && ValidName(name)
  {
  }

  lemma UsKeyOfSign(name: KeyName, shift: bool)
    requires CharOfName(name, shift).Some? && !name.Letter? && !name.Digit?
    ensures UsKey(CharOfName(name, shift).value) == Some((if shift then MOD_LSHIFT else MOD_NONE, name))
            && ValidName(name)
  {
  }

  lemma UsKeyOfChar(name: KeyName, shift: bool)
    requires CharOfName(name, shift).Some?
    ensures UsKey(CharOfName(name, shift).value) == Some((if shift then MOD_LSHIFT else MOD_NONE, name))
            && ValidName(name)
  {
    if name.Letter? || name.Digit? {
      UsKeyOfLetterOrDigit(name, shift);
    } else {
      UsKeyOfSign(name, shift);
    }
  }

  /** UsChar inverts UsStroke exactly; so the layout is injective. */
  lemma UsCharInvertsUsStroke(c: char, key: int, shift: bool)
    ensures UsStroke(c) == Some(KeyStroke(if shift then MOD_LSHIFT else MOD_NONE, key))
            <==> UsChar(key, shift) == Some(c)
  {
    if UsStroke(c) == Some(KeyStroke(if shift then MOD_LSHIFT else MOD_NONE, key)) {
      CharOfUsKey(c);
      NameOfKeyInverts(UsKey(c).value.1, key);
    } else if UsChar(key, shift) == Some(c) {
      var name := NameOfKey(key).value;
      NameOfKeyInverts(name, key);
      UsKeyOfChar(name, shift);
    }
  }

  // ---------------------------------------------------------------------
  // The agent's keycode maps
  // ---------------------------------------------------------------------

  /** `_hid_to_vk`; 0 means the key is not forwarded. */
  function HidToVk(key: int): int {
    if 0x04 <= key <= 0x1D then 0x41 + (key - 0x04)
    else if 0x1E <= key <= 0x26 then 0x31 + (key - 0x1E)
    else if key == 0x27 then 0x30
    else match key
      case 0x28 => 0x0D case 0x29 => 0x1B case 0x2A => 0x08 case 0x2B => 0x09
      case 0x2C => 0x20
      case 0x2D => 0xBD case 0x2E => 0xBB case 0x2F => 0xDB case 0x30 => 0xDD
      case 0x31 => 0xDC case 0x33 => 0xBA case 0x34 => 0xDE case 0x35 => 0xC0
      case 0x36 => 0xBC case 0x37 => 0xBE case 0x38 => 0xBF
      case 0x39 => 0x14
      case 0x3A => 0x70 case 0x3B => 0x71 case 0x3C => 0x72 case 0x3D => 0x73
      case 0x3E => 0x74 case 0x3F => 0x75 case 0x40 => 0x76 case 0x41 => 0x77
      case 0x42 => 0x78 case 0x43 => 0x79 case 0x44 => 0x7A case 0x45 => 0x7B
      case 0x46 => 0x2C case 0x47 => 0x91 case 0x48 => 0x13
      case 0x49 => 0x2D case 0x4A => 0x24 case 0x4B => 0x21
      case 0x4C => 0x2E case 0x4D => 0x23 case 0x4E => 0x22
      case 0x4F => 0x27 case 0x50 => 0x25 case 0x51 => 0x28 case 0x52 => 0x26
      case _ => 0
  }

  function VkToHid(vk: int): Option<int> {
    if 0x41 <= vk <= 0x5A then Some(vk - 0x41 + 0x04)
    else if 0x31 <= vk <= 0x39 then Some(vk - 0x31 + 0x1E)
    else if 0x70 <= vk <= 0x7B then Some(vk - 0x70 + 0x3A)
    else match vk
      case 0x30 => Some(0x27)
      case 0x0D => Some(0x28) case 0x1B => Some(0x29) case 0x08 => Some(0x2A) case 0x09 => Some(0x2B)
      case 0x20 => Some(0x2C)
      case 0xBD => Some(0x2D) case 0xBB => Some(0x2E) case 0xDB => Some(0x2F) case 0xDD => Some(0x30)
      case 0xDC => Some(0x31) case 0xBA => Some(0x33) case 0xDE => Some(0x34) case 0xC0 => Some(0x35)
      case 0xBC => Some(0x36) case 0xBE => Some(0x37) case 0xBF => Some(0x38)
      case 0x14 => Some(0x39)
      case 0x2C => Some(0x46) case 0x91 => Some(0x47) case 0x13 => Some(0x48)
      case 0x2D => Some(0x49) case 0x24 => Some(0x4A) case 0x21 => Some(0x4B)
      case 0x2E => Some(0x4C) case 0x23 => Some(0x4D) case 0x22 => Some(0x4E)
      case 0x27 => Some(0x4F) case 0x25 => Some(0x50) case 0x28 => Some(0x51) case 0x26 => Some(0x52)
      case _ => None
  }

  /** The Windows map is injective where it is not 0. */
  lemma VkToHidInvertsHidToVk(key: int, vk: int)
    ensures HidToVk(key) == vk && vk != 0 <==> VkToHid(vk) == Some(key)
  {
  }

  /** The virtual key of a letter or digit is its upper-case ASCII code. */
  lemma VkIsAscii(c: char)
    ensures 'a' <= c <= 'z' ==> HidToVk(UsStroke(c).value.key) == c as int - 32
    ensures 'A' <= c <= 'Z' || '0' <= c <= '9' ==> HidToVk(UsStroke(c).value.key) == c as int
  {
  }

  const MAC_LETTERS: seq<int> := [0, 11, 8, 2, 14, 3, 5, 4, 34, 38, 40, 37, 46, 45, 31, 35, 12, 15, 1, 17, 32, 9, 13,
      7, 16, 6]
  const MAC_DIGITS: seq<int> := [18, 19, 20, 21, 23, 22, 26, 28, 25, 29]

  /** `_hid_to_mac_keycode` */
  function HidToMac(key: int): Option<int> {
    if 0x04 <= key <= 0x1D then Some(MAC_LETTERS[key - 0x04])
    else if 0x1E <= key <= 0x27 then Some(MAC_DIGITS[key - 0x1E])
    else match key
      case 0x28 => Some(36) case 0x29 => Some(53) case 0x2A => Some(51) case 0x2B => Some(48)
      case 0x2C => Some(49)
      case 0x4F => Some(124) case 0x50 => Some(123) case 0x51 => Some(125) case 0x52 => Some(126)
      case _ => None
  }

  function MacToHid(code: int): Option<int> {
    match code
    case 0 => Some(0x04) case 11 => Some(0x05) case 8 => Some(0x06) case 2 => Some(0x07)
    case 14 => Some(0x08) case 3 => Some(0x09) case 5 => Some(0x0A) case 4 => Some(0x0B)
    case 34 => Some(0x0C) case 38 => Some(0x0D) case 40 => Some(0x0E) case 37 => Some(0x0F)
    case 46 => Some(0x10) case 45 => Some(0x11) case 31 => Some(0x12) case 35 => Some(0x13)
    case 12 => Some(0x14) case 15 => Some(0x15) case 1 => Some(0x16) case 17 => Some(0x17)
    case 32 => Some(0x18) case 9 => Some(0x19) case 13 => Some(0x1A) case 7 => Some(0x1B)
    case 16 => Some(0x1C) case 6 => Some(0x1D)
    case 18 => Some(0x1E) case 19 => Some(0x1F) case 20 => Some(0x20) case 21 => Some(0x21)
    case 23 => Some(0x22) case 22 => Some(0x23) case 26 => Some(0x24) case 28 => Some(0x25)
    case 25 => Some(0x26) case 29 => Some(0x27)
    case 36 => Some(0x28) case 53 => Some(0x29) case 51 => Some(0x2A) case 48 => Some(0x2B)
    case 49 => Some(0x2C)
    case 124 => Some(0x4F) case 123 => Some(0x50) case 125 => Some(0x51) case 126 => Some(0x52)
    case _ => None
  }

  lemma MacToHidOfHidToMac(key: int)
    requires HidToMac(key).Some?
    ensures MacToHid(HidToMac(key).value) == Some(key)
  {
  }

  lemma HidToMacOfMacToHid(code: int)
    requires MacToHid(code).Some?
    ensures HidToMac(MacToHid(code).value) == Some(code)
  {
  }

  /** The macOS map is injective. */
  lemma MacToHidInvertsHidToMac(key: int, code: int)
    ensures HidToMac(key) == Some(code) <==> MacToHid(code) == Some(key)
  {
    if HidToMac(key) == Some(code) {
      MacToHidOfHidToMac(key);
    } else if MacToHid(code) == Some(key) {
      HidToMacOfMacToHid(code);
    }
  }
}
