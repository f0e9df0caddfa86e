/**
 * The records the automation service and the clients work on: the OCR tree of a screen (ScreenOcrDataModel), the
 * screen registry (AtmScreenModel, ScreenPhrase), click candidates (FindAndClickModel),
 * device descriptions (AtmServiceModel) and text locations (LocationModel).
 */
module Models {
  import opened Ratios

  /** A bounding box, x0..y1 in screen coordinates; its midpoint is where a click lands. */
  datatype Box = Box(x0: real, y0: real, x1: real, y1: real)

  /** ScreenCoordinates. */
  datatype Point = Point(x: real, y: real)

  /** OCR word: the recogniser's own score is not used by the automation service and is not kept. */
  datatype Word = Word(box: Box, text: string)

  datatype Line = Line(box: Box, text: string, words: seq<Word>)

  datatype Element = Element(box: Box, text: string, lines: seq<Line>)

  /** The text of one screen as the OCR service returns it: elements, lines, words. */
  datatype OcrPage = OcrPage(elements: seq<Element>)

  /** One recognisable phrase of a screen; `editDistance` defaults to 0 in the configuration. */
  datatype ScreenPhrase = ScreenPhrase(text: string, matchConfidence: Confidence, editDistance: int)

  /** A named screen, recognised when any one of its phrases matches. */
  datatype AtmScreen = AtmScreen(name: string, phrases: seq<ScreenPhrase>)

  /** A place the click resolver could click, with the text found there and its confidence. */
  datatype Candidate = Candidate(location: Box, text: string, confidence: Confidence)

  /** One device of the terminal, with the number of media items waiting in it. */
  datatype Device = Device(name: string, deviceType: string, isOpen: bool, media: int)

  /** The answer of the text-location service. */
  datatype Location = Location(found: bool, point: Point)
}
