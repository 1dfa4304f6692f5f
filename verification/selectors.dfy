/**
 * Multi-selector element lookup (find_element_by_multiple_selectors in
 * utils/test_helpers.py). Each selector is tried in list order: a selector
 * starting with "//" is an XPath query, any other a CSS query. The page is an
 * oracle that answers each query with an element, a timeout or another error.
 */
module Selectors {
  import opened PyText

  datatype Locator = XPath(query: string) | Css(query: string)

  /** The page's answer to a wait for one locator. */
  datatype Probe<E> = Found(element: E) | TimedOut | Failed(error: string)

  /** What the lookup does: return an element, return None, or let an error propagate. */
  datatype Lookup<E> = Element(element: E) | NotFound | Raised(error: string)

  /** The locator strategy chosen for a selector. */
  function LocatorOf(selector: string): (l: Locator)
    ensures l.query == selector
    ensures l.XPath? <==> StartsWith(selector, "//")
  {
    if StartsWith(selector, "//") then XPath(selector) else Css(selector)
  }

  /** The probe for the i-th selector. */
  function ProbeAt<E>(selectors: seq<string>, page: Locator -> Probe<E>, i: nat): Probe<E>
    requires i < |selectors|
  {
    page(LocatorOf(selectors[i]))
  }

  /** What a settling probe makes the lookup do. */
  function Settle<E>(p: Probe<E>): Lookup<E>
    requires !p.TimedOut?
  {
    match p
    case Found(e) => Element(e)
    case Failed(err) => Raised(err)
  }

  /** Selector i is the first one whose probe does not time out. */
  ghost predicate FirstAnswer<E>(selectors: seq<string>, page: Locator -> Probe<E>, i: nat) {
    && i < |selectors|
    && !ProbeAt(selectors, page, i).TimedOut?
    && forall j :: 0 <= j < i ==> ProbeAt(selectors, page, j).TimedOut?
  }

  /** The lookup: a timeout moves on to the next selector, an element is returned
      at once, any other error propagates; when the list is exhausted, None. */
  function FindElement<E>(selectors: seq<string>, page: Locator -> Probe<E>): (r: Lookup<E>)
    ensures r.NotFound? <==> forall i :: 0 <= i < |selectors| ==> ProbeAt(selectors, page, i).TimedOut?
    ensures !r.NotFound? ==> exists i :: FirstAnswer(selectors, page, i) && r == Settle(ProbeAt(selectors, page, i))
    decreases |selectors|
  {
    if |selectors| == 0 then NotFound
    else
      var tail := FindElement(selectors[1..], page);
      assert forall i :: 0 <= i < |selectors| - 1 ==> ProbeAt(selectors[1..], page, i) == ProbeAt(selectors, page, i + 1);
      match page(LocatorOf(selectors[0]))
      case Found(e) =>
        assert FirstAnswer(selectors, page, 0);
        Element(e)
      case Failed(err) =>
        assert FirstAnswer(selectors, page, 0);
        Raised(err)
      case TimedOut =>
        FirstAnswerShifts(selectors, page);
        tail
  }

  /** Past a timed-out first selector, the first answer moves up by one. */
  lemma FirstAnswerShifts<E>(selectors: seq<string>, page: Locator -> Probe<E>)
    requires |selectors| > 0 && ProbeAt(selectors, page, 0).TimedOut?
    ensures forall k: nat :: FirstAnswer(selectors[1..], page, k) ==> FirstAnswer(selectors, page, k + 1)
    ensures (forall i :: 0 <= i < |selectors| ==> ProbeAt(selectors, page, i).TimedOut?)
        <==> (forall i :: 0 <= i < |selectors| - 1 ==> ProbeAt(selectors[1..], page, i).TimedOut?)
  {
    forall i | 0 < i < |selectors| ensures ProbeAt(selectors, page, i) == ProbeAt(selectors[1..], page, i - 1) {
      assert selectors[1..][i - 1] == selectors[i];
    }
    if forall i :: 0 <= i < |selectors| - 1 ==> ProbeAt(selectors[1..], page, i).TimedOut? {
      forall i | 0 <= i < |selectors| ensures ProbeAt(selectors, page, i).TimedOut? {
        if i > 0 {
          assert ProbeAt(selectors[1..], page, i - 1).TimedOut?;
        }
      }
    }
    if forall i :: 0 <= i < |selectors| ==> ProbeAt(selectors, page, i).TimedOut? {
      forall i | 0 <= i < |selectors| - 1 ensures ProbeAt(selectors[1..], page, i).TimedOut? {
        assert ProbeAt(selectors, page, i + 1).TimedOut?;
      }
    }
    forall k: nat | FirstAnswer(selectors[1..], page, k) ensures FirstAnswer(selectors, page, k + 1) {
      forall j | 0 <= j < k + 1 ensures ProbeAt(selectors, page, j).TimedOut? {
        if j > 0 {
          assert ProbeAt(selectors[1..], page, j - 1) == ProbeAt(selectors, page, j);
        }
      }
    }
  }

  /** The first answer, when there is one, is unique. */
  lemma FirstAnswerUnique<E>(selectors: seq<string>, page: Locator -> Probe<E>, i: nat, j: nat)
    requires FirstAnswer(selectors, page, i) && FirstAnswer(selectors, page, j)
    ensures i == j
  {
  }

  /** Selectors after the first answer are never consulted: appending more
      selectors leaves a settled lookup unchanged, and after a lookup that found
      nothing the appended selectors alone decide. */
  lemma {:induction false} FindElementAppend<E>(s: seq<string>, t: seq<string>, page: Locator -> Probe<E>)
    ensures !FindElement(s, page).NotFound? ==> FindElement(s + t, page) == FindElement(s, page)
    ensures FindElement(s, page).NotFound? ==> FindElement(s + t, page) == FindElement(t, page)
    decreases |s|
  {
    if |s| == 0 {
      assert s + t == t;
    } else {
      assert (s + t)[0] == s[0];
      assert (s + t)[1..] == s[1..] + t;
      if page(LocatorOf(s[0])).TimedOut? {
        FindElementAppend(s[1..], t, page);
      }
    }
  }

  /** Two pages that answer alike up to and including the first answer give the same lookup. */
  lemma {:induction false} OnlyPrefixConsulted<E>(selectors: seq<string>, page1: Locator -> Probe<E>, page2: Locator -> Probe<E>, i: nat)
    requires FirstAnswer(selectors, page1, i)
    requires forall j :: 0 <= j <= i ==> ProbeAt(selectors, page1, j) == ProbeAt(selectors, page2, j)
    ensures FindElement(selectors, page1) == FindElement(selectors, page2)
  {
    var r1 := FindElement(selectors, page1);
    var r2 := FindElement(selectors, page2);
    assert FirstAnswer(selectors, page2, i);
    assert !r1.NotFound? by {
      assert !ProbeAt(selectors, page1, i).TimedOut?;
    }
    assert !r2.NotFound? by {
      assert !ProbeAt(selectors, page2, i).TimedOut?;
    }
    var k1 :| FirstAnswer(selectors, page1, k1) && r1 == Settle(ProbeAt(selectors, page1, k1));
    var k2 :| FirstAnswer(selectors, page2, k2) && r2 == Settle(ProbeAt(selectors, page2, k2));
    FirstAnswerUnique(selectors, page1, k1, i);
    FirstAnswerUnique(selectors, page2, k2, i);
  }

  /** Sample selector lists of the product page. */
  const AddToCartButton := [
    "//" + "button[contains(text(), 'Thêm vào giỏ hàng')]",
    "//button[contains(text(), 'Add to cart')]",
    "//input[@value='Thêm vào giỏ hàng']",
    ".add-to-cart",
    ".btn-add-cart",
    "#add-to-cart-button",
    ".add-cart-btn"
  ]

  const QuantityInput := [
    "input[name='quantity']",
    "input[id='quantity']",
    ".quantity-input",
    "input[type='number']",
    ".qty-input"
  ]

  /** The first three add-to-cart selectors are XPath queries, the rest CSS. */
  lemma AddToCartKinds()
    ensures forall i :: 0 <= i < 3 ==> LocatorOf(AddToCartButton[i]).XPath?
    ensures forall i :: 3 <= i < 7 ==> LocatorOf(AddToCartButton[i]).Css?
  {
    forall i | 0 <= i < 7 ensures LocatorOf(AddToCartButton[i]).XPath? <==> i < 3 {
      if i == 0 {
        DoubleSlashIsXPath(AddToCartButton[0]);
      } else if i == 1 {
        DoubleSlashIsXPath(AddToCartButton[1]);
      } else if i == 2 {
        DoubleSlashIsXPath(AddToCartButton[2]);
      } else {
        NoSlashIsCss(AddToCartButton[i]);
      }
    }
  }

  /** No quantity-input selector is an XPath query. */
  lemma QuantityInputKinds()
    ensures forall i :: 0 <= i < |QuantityInput| ==> LocatorOf(QuantityInput[i]).Css?
  {
    forall i | 0 <= i < |QuantityInput| ensures LocatorOf(QuantityInput[i]).Css? {
      NoSlashIsCss(QuantityInput[i]);
    }
  }

  lemma DoubleSlashIsXPath(selector: string)
    requires |selector| >= 2 && selector[0] == '/' && selector[1] == '/'
    ensures LocatorOf(selector).XPath?
  {
    assert selector[..2] == "//";
  }

  lemma NoSlashIsCss(selector: string)
    requires |selector| > 0 && selector[0] != '/'
    ensures LocatorOf(selector).Css?
  {
  }

  /** An empty selector list finds nothing, whatever the page. */
  lemma EmptySelectorList<E>(page: Locator -> Probe<E>)
    ensures FindElement([], page) == NotFound
  {
  }
}
