/**
 * `JSON.stringify` over the value model, and the two lengths the front end
 * and the share endpoint compare against their size guards: UTF-16 code
 * units (`string.length`) and UTF-8 bytes (`TextEncoder`).
 */
module JsonText {
  import opened Wrappers
  import opened Text
  import opened Json
  import Utf8

  function LowerHexDigit(d: nat): char
    requires d < 16
  {
    if d < 10 then ('0' as int + d) as char else ('a' as int + d - 10) as char
  }

  /** The escape `JSON.stringify` writes for one character of a string. */
  function EscapeChar(c: char): (r: string)
    ensures |r| >= 1
  {
    if c == '"' then "\\\""
    else if c == '\\' then "\\\\"
    else if c == '\U{0008}' then "\\b"
    else if c == '\U{000C}' then "\\f"
    else if c == '\n' then "\\n"
    else if c == '\r' then "\\r"
    else if c == '\t' then "\\t"
    else if (c as int) < 0x20 then "\\u00" + [LowerHexDigit(c as int / 16), LowerHexDigit(c as int % 16)]
    else [c]
  }

  function Escape(s: string): string {
    if s == [] then [] else EscapeChar(s[0]) + Escape(s[1..])
  }

  /** A string literal. */
  function Quote(s: string): string {
    "\"" + Escape(s) + "\""
  }

  /**
   * The text of `v` where `undefined` prints as `null`, as it does for an
   * array element; object entries holding `undefined` are skipped.
   */
  function Write(v: Json): string
    decreases v, 1
  {
    match v
    case JUndefined => "null"
    case JNull => "null"
    case JBool(b) => if b then "true" else "false"
    case JNum(n) => IntToString(n)
    case JStr(s) => Quote(s)
    case JArr(items) => "[" + Join(WriteItems(items, v), ",") + "]"
    case JObj(fields) => "{" + Join(WriteFields(fields, v), ",") + "}"
  }

  function WriteItems(items: seq<Json>, parent: Json): seq<string>
    requires parent.JArr? && items <= parent.items
    decreases parent, 0, |items|
  {
    if items == [] then []
    else WriteItems(items[..|items| - 1], parent) + [Write(items[|items| - 1])]
  }

  function WriteFields(fields: seq<(string, Json)>, parent: Json): seq<string>
    requires parent.JObj? && fields <= parent.fields
    decreases parent, 0, |fields|
  {
    if fields == [] then []
    else
      var rest := WriteFields(fields[..|fields| - 1], parent);
      var f := fields[|fields| - 1];
      if f.1.JUndefined? then rest else rest + [Quote(f.0) + ":" + Write(f.1)]
  }

  /** `JSON.stringify(v)`: no text at all for `undefined`. */
  function Stringify(v: Json): Option<string> {
    if v.JUndefined? then None else Some(Write(v))
  }

  /** `s.length`: characters outside the Basic Multilingual Plane take two code units. */
  function Utf16Length(s: string): nat {
    if s == [] then 0 else (if (s[0] as int) > 0xFFFF then 2 else 1) + Utf16Length(s[1..])
  }

  /** `new TextEncoder().encode(s).length`. */
  function Utf8Length(s: string): nat {
    |Utf8.Encode(s)|
  }
}
