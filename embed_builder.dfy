/**
 * The embed builder of the admin panel: the validation of an embed against Discord's limits,
 * the colour parsing, the button row and the button styles.
 */
module EmbedBuilder {
  import opened Wrappers
  import opened Text

  // ---------------------------------------------------------------------------------------
  // validateEmbedData
  // ---------------------------------------------------------------------------------------

  datatype Field = Field(name: string, value: string, inline: bool)

  /** The parts of an embed the validation reads; `footer` and `author` hold the checked text. */
  datatype EmbedData = EmbedData(
    title: Option<string>, description: Option<string>, fields: Option<seq<Field>>,
    footer: Option<string>, author: Option<string>)

  const TitleLimit: nat := 256
  const DescriptionLimit: nat := 4096
  const FieldCountLimit: nat := 25
  const FieldNameLimit: nat := 256
  const FieldValueLimit: nat := 1024
  const FooterLimit: nat := 2048
  const AuthorLimit: nat := 256

  /** The errors validateEmbedData reports; `Message` gives the text the user sees. */
  datatype EmbedError =
    | NoText
    | TitleTooLong
    | DescriptionTooLong
    | TooManyFields
    | FieldNameTooLong(n: nat)
    | FieldValueTooLong(n: nat)
    | FooterTooLong
    | AuthorTooLong

  /** The text of an error; a field's errors name the field's number, counted from 1. */
  function Message(e: EmbedError): string
  {
    match e
    case NoText => "Embed deve ter pelo menos um título ou descrição"
    case TitleTooLong => "Título não pode ter mais de 256 caracteres"
    case DescriptionTooLong => "Descrição não pode ter mais de 4096 caracteres"
    case TooManyFields => "Embed não pode ter mais de 25 campos"
    case FieldNameTooLong(n) => "Campo " + NatToString(n) + ": Nome não pode ter mais de 256 caracteres"
    case FieldValueTooLong(n) => "Campo " + NatToString(n) + ": Valor não pode ter mais de 1024 caracteres"
    case FooterTooLong => "Footer não pode ter mais de 2048 caracteres"
    case AuthorTooLong => "Nome do autor não pode ter mais de 256 caracteres"
  }

  /** The optional text is present and longer than the limit. */
  predicate TooLong(s: Option<string>, limit: nat)
  {
    s.Some? && |s.value| > limit
  }

  /** The errors of the field at index `i`: the name's, then the value's. */
  function FieldErrorsAt(f: Field, i: nat): seq<EmbedError>
  {
    (if |f.name| > FieldNameLimit then [FieldNameTooLong(i + 1)] else [])
    + (if |f.value| > FieldValueLimit then [FieldValueTooLong(i + 1)] else [])
  }

  /** The errors of the fields, the first of which sits at index `start`, in field order. */
  function FieldErrors(fields: seq<Field>, start: nat): seq<EmbedError>
  {
    if |fields| == 0 then [] else FieldErrorsAt(fields[0], start) + FieldErrors(fields[1..], start + 1)
  }

  /** The error list of validateEmbedData, in the order the checks run. */
  function EmbedErrors(data: EmbedData): seq<EmbedError>
  {
    TextErrors(data) + FieldListErrors(data) + TrailerErrors(data)
  }

  /** The checks of the title and the description. */
  function TextErrors(data: EmbedData): seq<EmbedError>
  {
    (if !Truthy(data.title) && !Truthy(data.description) then [NoText] else [])
    + (if TooLong(data.title, TitleLimit) then [TitleTooLong] else [])
    + (if TooLong(data.description, DescriptionLimit) then [DescriptionTooLong] else [])
  }

  /** The checks of the field list: its length, then each field in order. */
  function FieldListErrors(data: EmbedData): seq<EmbedError>
  {
    if data.fields.None? then []
    else (if |data.fields.value| > FieldCountLimit then [TooManyFields] else []) + FieldErrors(data.fields.value, 0)
  }

  /** The checks of the footer and the author. */
  function TrailerErrors(data: EmbedData): seq<EmbedError>
  {
    (if TooLong(data.footer, FooterLimit) then [FooterTooLong] else [])
    + (if TooLong(data.author, AuthorLimit) then [AuthorTooLong] else [])
  }

  /** Every limit holds, stated without the error list. */
  predicate WithinLimits(data: EmbedData)
  {
    (Truthy(data.title) || Truthy(data.description))
    && !TooLong(data.title, TitleLimit) && !TooLong(data.description, DescriptionLimit)
    && (data.fields.Some? ==>
          |data.fields.value| <= FieldCountLimit
          && forall f :: f in data.fields.value ==> |f.name| <= FieldNameLimit && |f.value| <= FieldValueLimit)
    && !TooLong(data.footer, FooterLimit) && !TooLong(data.author, AuthorLimit)
  }

  /**
   * validateEmbedData: each check pushes its error when it fails (written here as appending
   * the error or nothing), the fields' checks in a loop.
   */
  method ValidateEmbedData(data: EmbedData) returns (valid: bool, errors: seq<EmbedError>)
    ensures errors == EmbedErrors(data)
    ensures valid <==> WithinLimits(data)
  {
    errors := [];
    errors := errors + (if !Truthy(data.title) && !Truthy(data.description) then [NoText] else []);
    errors := errors + (if TooLong(data.title, TitleLimit) then [TitleTooLong] else []);
    errors := errors + (if TooLong(data.description, DescriptionLimit) then [DescriptionTooLong] else []);
    ghost var text := errors;
    assert text == TextErrors(data);
    if data.fields.Some? {
      var fields := data.fields.value;
      var countErrors := if |fields| > FieldCountLimit then [TooManyFields] else [];
      errors := errors + countErrors;
      var fieldErrors := CollectFieldErrors(fields);
      errors := errors + fieldErrors;
      Associative(text, countErrors, fieldErrors);
    }
    ghost var listed := errors;
    assert listed == text + FieldListErrors(data);
    var footerErrors := if TooLong(data.footer, FooterLimit) then [FooterTooLong] else [];
    errors := errors + footerErrors;
    var authorErrors := if TooLong(data.author, AuthorLimit) then [AuthorTooLong] else [];
    errors := errors + authorErrors;
    Associative(listed, footerErrors, authorErrors);
    valid := |errors| == 0;
    ValidIffWithinLimits(data);
  }

  lemma Associative<T>(a: seq<T>, b: seq<T>, c: seq<T>)
    ensures a + b + c == a + (b + c)
  {
  }

  /** The `forEach` over the fields, pushing each field's errors in turn. */
  method CollectFieldErrors(fields: seq<Field>) returns (errors: seq<EmbedError>)
    ensures errors == FieldErrors(fields, 0)
  {
    errors := [];
    for i := 0 to |fields|
      invariant errors == FieldErrors(fields[..i], 0)
    {
      ghost var before := errors;
      if |fields[i].name| > FieldNameLimit {
        errors := errors + [FieldNameTooLong(i + 1)];
      }
      if |fields[i].value| > FieldValueLimit {
        errors := errors + [FieldValueTooLong(i + 1)];
      }
      assert errors == before + FieldErrorsAt(fields[i], i);
      FieldErrorsSnoc(fields, i);
    }
    assert fields[..|fields|] == fields;
  }

  /** The errors of one more field follow those of the fields before it. */
  lemma FieldErrorsSnoc(fields: seq<Field>, i: nat)
    requires i < |fields|
    ensures FieldErrors(fields[..i + 1], 0) == FieldErrors(fields[..i], 0) + FieldErrorsAt(fields[i], i)
  {
    FieldErrorsConcat(fields[..i], [fields[i]], 0);
    assert fields[..i + 1] == fields[..i] + [fields[i]];
    assert FieldErrors([fields[i]], i) == FieldErrorsAt(fields[i], i) + FieldErrors([], i + 1);
  }

  /** The fields' errors come in field order: those of a prefix, then those of the rest. */
  lemma {:induction false} FieldErrorsConcat(a: seq<Field>, b: seq<Field>, start: nat)
    ensures FieldErrors(a + b, start) == FieldErrors(a, start) + FieldErrors(b, start + |a|)
  {
    if |a| == 0 {
      assert a + b == b;
    } else {
      assert (a + b)[0] == a[0] && (a + b)[1..] == a[1..] + b;
      FieldErrorsConcat(a[1..], b, start + 1);
    }
  }

  /** No field error exactly when every field is within its limits. */
  lemma {:induction false} FieldErrorsEmpty(fields: seq<Field>, start: nat)
    ensures FieldErrors(fields, start) == [] <==>
      forall f :: f in fields ==> |f.name| <= FieldNameLimit && |f.value| <= FieldValueLimit
  {
    if |fields| > 0 {
      FieldErrorsEmpty(fields[1..], start + 1);
      assert forall f :: f in fields <==> f == fields[0] || f in fields[1..];
    }
  }

  /**
   * The embed is valid exactly when it has a title or a description and every limit holds:
   * title 256, description 4096, 25 fields of name 256 and value 1024, footer 2048, author 256.
   */
  lemma ValidIffWithinLimits(data: EmbedData)
    ensures EmbedErrors(data) == [] <==> WithinLimits(data)
  {
    if data.fields.Some? {
      FieldErrorsEmpty(data.fields.value, 0);
    }
  }

  /** An embed with neither title nor description fails, and that is the first error. */
  lemma NoTextFirst(data: EmbedData)
    requires !Truthy(data.title) && !Truthy(data.description)
    ensures |EmbedErrors(data)| >= 1 && EmbedErrors(data)[0] == NoText
  {
  }

  // ---------------------------------------------------------------------------------------
  // parseColor
  // ---------------------------------------------------------------------------------------

  /** A colour for the embed: a `#` text passed on as it is, or a number. */
  datatype Color = HexText(text: string) | Number(value: nat)

  const DefaultColor: nat := 0x3498db

  /** The table of Portuguese colour names, keyed by the lower-case name. */
  function NamedColor(name: string): Option<nat>
  {
    if name == "azul" then Some(0x3498db)
    else if name == "verde" then Some(0x2ecc71)
    else if name == "vermelho" then Some(0xe74c3c)
    else if name == "amarelo" then Some(0xf1c40f)
    else if name == "roxo" then Some(0x9b59b6)
    else if name == "rosa" then Some(0xe91e63)
    else if name == "laranja" then Some(0xe67e22)
    else if name == "cinza" then Some(0x95a5a6)
    else if name == "preto" then Some(0x000000)
    else if name == "branco" then Some(0xffffff)
    else None
  }

  /** Exactly six hexadecimal digits, in either case. */
  predicate IsSixHex(s: string)
  {
    |s| == 6 && forall i :: 0 <= i < |s| ==> IsHexDigit(s[i])
  }

  /**
   * parseColor as written: the table lookup tests the number for truthiness, so the entry for
   * "preto" (0) is skipped and the name falls through to the default blue.
   */
  function ParseColorAsWritten(color: string): Color
  {
    if StartsWith(color, "#") then HexText(color)
    else
      var named := NamedColor(Lower(color));
      if named.Some? && named.value != 0 then Number(named.value)
      else if IsSixHex(color) then Number(HexValue(color))
      else Number(DefaultColor)
  }

  /** parseColor as its table intends: every listed name, "preto" included, gives its colour. */
  function ParseColor(color: string): Color
  {
    if StartsWith(color, "#") then HexText(color)
    else
      var named := NamedColor(Lower(color));
      if named.Some? then Number(named.value)
      else if IsSixHex(color) then Number(HexValue(color))
      else Number(DefaultColor)
  }

  /** "preto" in any case comes out blue, not black, from the code as written. */
  lemma PretoIsBlue(color: string)
    requires Lower(color) == "preto"
    ensures ParseColorAsWritten(color) == Number(0x3498db)
  {
    assert !StartsWith(color, "#") by {
      assert Lower(color)[0] == 'p';
    }
    assert !IsSixHex(color) by {
      assert Lower(color)[0] == 'p';
      assert ToLowerChar(color[0]) == 'p';
    }
  }

  /** The two versions differ only for "preto". */
  lemma AsWrittenAgreesElsewhere(color: string)
    requires Lower(color) != "preto"
    ensures ParseColorAsWritten(color) == ParseColor(color)
  {
  }

  /**
   * The intended parser: a `#` text is kept as it is; a listed name in any case gives its colour
   * (so "preto" gives black); six hex digits give their value, below 0x1000000; anything else
   * gives the default blue.
   */
  lemma ParseColorMeaning(color: string)
    ensures StartsWith(color, "#") ==> ParseColor(color) == HexText(color)
    ensures !StartsWith(color, "#") && NamedColor(Lower(color)).Some? ==>
      ParseColor(color) == Number(NamedColor(Lower(color)).value)
    ensures !StartsWith(color, "#") && Lower(color) == "preto" ==> ParseColor(color) == Number(0)
    ensures !StartsWith(color, "#") && NamedColor(Lower(color)).None? && IsSixHex(color) ==>
      ParseColor(color) == Number(HexValue(color)) && HexValue(color) < 0x1000000
    ensures !StartsWith(color, "#") && NamedColor(Lower(color)).None? && !IsSixHex(color) ==>
      ParseColor(color) == Number(DefaultColor)
  {
    if IsSixHex(color) {
      HexValueBelow(color);
      assert Power16(6) == 0x1000000;
    }
  }

  function Power16(n: nat): nat
  {
    if n == 0 then 1 else 16 * Power16(n - 1)
  }

  lemma {:induction false} HexValueBelow(s: string)
    requires forall i :: 0 <= i < |s| ==> IsHexDigit(s[i])
    ensures HexValue(s) < Power16(|s|)
  {
    if |s| > 0 {
      HexValueBelow(s[..|s| - 1]);
    }
  }

  // ---------------------------------------------------------------------------------------
  // buildButtons and getButtonStyle
  // ---------------------------------------------------------------------------------------

  /** Discord's button styles. */
  const Primary: nat := 1
  const Secondary: nat := 2
  const Success: nat := 3
  const Danger: nat := 4
  const Link: nat := 5

  /** One configured button. */
  datatype ButtonConfig = ButtonConfig(caption: string, style: string, action: string, url: Option<string>, emoji: Option<string>)

  /** One built button. */
  datatype Button = Button(caption: string, style: nat, emoji: Option<string>, customId: Option<string>, url: Option<string>)

  /** getButtonStyle: the five style names, anything else Primary. */
  function GetButtonStyle(style: string): (r: nat)
    ensures 1 <= r <= 5
    ensures style !in {"primary", "secondary", "success", "danger", "link"} ==> r == Primary
  {
    if style == "primary" then Primary
    else if style == "secondary" then Secondary
    else if style == "success" then Success
    else if style == "danger" then Danger
    else if style == "link" then Link
    else Primary
  }

  const DonationButtonId: string := "custom_donation_button"

  /**
   * One button of the row, with the clock reading taken while it is built: a donation link gets
   * its fixed id, a custom link with a URL becomes a link button, a custom action gets an id
   * stamped with the reading.
   */
  function BuildButton(b: ButtonConfig, reading: nat): Button
  {
    var base := Button(b.caption, GetButtonStyle(b.style), if Truthy(b.emoji) then b.emoji else None, None, None);
    if b.action == "donation_link" then base.(customId := Some(DonationButtonId))
    else if b.action == "custom_link" && Truthy(b.url) then base.(style := Link, url := b.url)
    else if b.action == "custom_action" then base.(customId := Some("custom_action_" + NatToString(reading)))
    else base
  }

  /**
   * The rows buildButtons returns: none without buttons, else one row of them all; `clock(i)` is
   * the clock reading taken while the i-th button is built.
   */
  function ButtonRows(buttons: Option<seq<ButtonConfig>>, clock: nat -> nat): seq<seq<Button>>
  {
    if buttons.None? || |buttons.value| == 0 then []
    else [seq(|buttons.value|, i requires 0 <= i < |buttons.value| => BuildButton(buttons.value[i], clock(i)))]
  }

  /** buildButtons: each button is added to the row in turn, reading the clock as it is built. */
  method BuildButtons(buttons: Option<seq<ButtonConfig>>, clock: nat -> nat) returns (rows: seq<seq<Button>>)
    ensures rows == ButtonRows(buttons, clock)
  {
    if buttons.None? || |buttons.value| == 0 {
      return [];
    }
    var bs := buttons.value;
    var row: seq<Button> := [];
    for i := 0 to |bs|
      invariant |row| == i && forall k :: 0 <= k < i ==> row[k] == BuildButton(bs[k], clock(k))
    {
      row := row + [BuildButton(bs[i], clock(i))];
    }
    assert row == ButtonRows(buttons, clock)[0];
    rows := [];
    if |row| > 0 {
      rows := rows + [row];
    }
  }

  /**
   * No buttons give no rows; otherwise one row holds every button in order, a donation link
   * carrying the fixed id, a custom link with a URL becoming a link button to it, a custom action
   * carrying the id stamped with its own clock reading, and no other button getting a URL.
   */
  lemma ButtonRowsMeaning(buttons: Option<seq<ButtonConfig>>, clock: nat -> nat)
    ensures var rows := ButtonRows(buttons, clock);
      (rows == [] <==> buttons.None? || buttons.value == [])
      && (rows != [] ==>
            |rows| == 1 && |rows[0]| == |buttons.value|
            && forall i :: 0 <= i < |buttons.value| ==>
                 var b, r := buttons.value[i], rows[0][i];
                 r.caption == b.caption
                 && (b.action == "donation_link" ==> r.customId == Some(DonationButtonId) && r.url.None?)
                 && (b.action == "custom_link" && Truthy(b.url) ==> r.style == Link && r.url == b.url && r.customId.None?)
                 && (b.action == "custom_action" ==> r.customId == Some("custom_action_" + NatToString(clock(i))) && r.url.None?)
                 && (r.url.Some? ==> b.action == "custom_link"))
  {
    if buttons.Some? && buttons.value != [] {
      var rows: seq<seq<Button>> := ButtonRows(buttons, clock);
      forall i | 0 <= i < |buttons.value|
        ensures var b, r := buttons.value[i], rows[0][i];
          r.caption == b.caption
          && (b.action == "donation_link" ==> r.customId == Some(DonationButtonId) && r.url.None?)
          && (b.action == "custom_link" && Truthy(b.url) ==> r.style == Link && r.url == b.url && r.customId.None?)
          && (b.action == "custom_action" ==> r.customId == Some("custom_action_" + NatToString(clock(i))) && r.url.None?)
          && (r.url.Some? ==> b.action == "custom_link")
      {
        var b, r := buttons.value[i], rows[0][i];
        assert r == BuildButton(b, clock(i));
        if b.action == "custom_action" {
          assert b.action != "donation_link" by { assert b.action[0] != "donation_link"[0]; }
          assert b.action != "custom_link" by { assert |b.action| != |"custom_link"|; }
        }
      }
    }
  }
}
